/**
 The frame ranges of the screenshot layer: parsing "all", "S-C" and "S-C-I", the number of screenshots they stand
 for, and the tests on a frame. The main results: parsing succeeds exactly if it leaves a valid and sensible range,
 printed ranges parse back, and the selected frames are S, S+I, S+2I, ... below S+C, as in the api_dump layer.
 */
module ScreenshotRange {
  import opened Options
  import opened Numerals
  import Dump = FrameRanges

  const SCREEN_SHOT_FRAMES_INTERVAL_DEFAULT: int := 1
  const SCREEN_SHOT_FRAMES_UNLIMITED: int := -1

  const INT_MAX: int := 0x7FFF_FFFF
  const TWO_32: int := 0x1_0000_0000

  datatype Range = Range(valid: bool, startFrame: int, count: int, interval: int)

  /** What a valid range always satisfies. */
  predicate Sensible(r: Range) {
    r.valid ==>
      && 0 <= r.startFrame <= INT_MAX && r.interval > 0
      && (Limited(r) ==> r.count >= 1 && (r.count - 1) * r.interval <= INT_MAX)
  }

  predicate Limited(r: Range) {
    r.count != SCREEN_SHOT_FRAMES_UNLIMITED
  }

  // ---------- Tests on a frame ----------

  /** A sum of two ints that are not negative; beyond the type it wraps. */
  function Wrap(sum: int): int {
    if sum > INT_MAX then sum - TWO_32 else sum
  }

  /** The sum in getEndFrameOfRange is beyond an int. */
  predicate Overflows(r: Range) {
    Limited(r) && r.startFrame + (r.count - 1) * r.interval > INT_MAX
  }

  /** getEndFrameOfRange */
  function EndFrame(r: Range): int {
    if Limited(r) then Wrap(r.startFrame + (r.count - 1) * r.interval) else SCREEN_SHOT_FRAMES_UNLIMITED
  }

  /** The remainder of C, which has the sign of the dividend. */
  function Remainder(a: int, b: int): int
    requires b > 0
  {
    if a >= 0 then a % b else -((-a) % b)
  }

  /** The result of isInScreenShotFrameRange. The lower bound is tested for limited ranges only. */
  predicate InRange(frame: int, r: Range) {
    && r.valid
    && (r.count != SCREEN_SHOT_FRAMES_UNLIMITED ==>
          r.startFrame <= frame && (frame <= EndFrame(r) || EndFrame(r) == SCREEN_SHOT_FRAMES_UNLIMITED))
  }

  /** What isInScreenShotFrameRange stores through its last argument. */
  predicate IsShot(frame: int, r: Range)
    requires Sensible(r)
  {
    InRange(frame, r) && Remainder(frame - r.startFrame, r.interval) == 0
  }

  /** isEndOfScreenShotFrameRange */
  predicate IsEnd(frame: int, r: Range)
    requires Sensible(r)
  {
    if !r.valid then true
    else EndFrame(r) != SCREEN_SHOT_FRAMES_UNLIMITED && InRange(frame, r) && frame >= EndFrame(r) && IsShot(frame, r)
  }

  /** A limited range whose end is beyond an int selects nothing and never ends. */
  lemma {:induction false} OverflowSelectsNothing(r: Range, frame: int)
    requires Sensible(r) && r.valid && Overflows(r)
    ensures EndFrame(r) < SCREEN_SHOT_FRAMES_UNLIMITED && !IsShot(frame, r) && !IsEnd(frame, r)
  {
  }

  lemma {:induction false} EndIsBehindStart(r: Range)
    requires Sensible(r) && r.valid && Limited(r) && !Overflows(r)
    ensures EndFrame(r) == r.startFrame + (r.count - 1) * r.interval && EndFrame(r) >= r.startFrame >= 0
  {
    Product(r.count - 1, r.interval);
  }

  lemma {:induction false} Product(a: int, b: int)
    requires a >= 0 && b > 0
    ensures a * b >= 0 && (a * b) % b == 0 && (a * b) / b == a
  {
    MultipleIs(a, b);
  }

  lemma {:induction false} MultipleIs(a: int, b: int)
    requires a >= 0 && b > 0
    ensures (a * b) % b == 0 && (a * b) / b == a
  {
    var q, m := (a * b) / b, (a * b) % b;
    assert q * b + m == a * b;
    var z := a - q;
    assert z * b == m;
    assert z >= 1 ==> z * b >= b;
    assert z <= -1 ==> z * b <= -b;
  }

  /**
   The last frame of a limited range is a screenshot, and it is the only one that ends the range; without overflow. With
   overflow no frame ends it.
   */
  lemma {:induction false} IsEndIs(frame: int, r: Range)
    requires Sensible(r) && r.valid
    ensures IsEnd(frame, r) <==> Limited(r) && !Overflows(r) && frame == EndFrame(r)
    ensures Limited(r) && !Overflows(r) ==> IsShot(EndFrame(r), r)
  {
    if Overflows(r) {
      OverflowSelectsNothing(r, frame);
    } else if Limited(r) {
      EndIsBehindStart(r);
      Product(r.count - 1, r.interval);
    }
  }

  // ---------- The normalised count ----------

  /** The number of screenshots among `frameCount` frames: the quotient, rounded up. */
  function ShotCount(frameCount: int, interval: int): (count: int)
    requires frameCount > 0 && interval > 0
    ensures count >= 1 && (count - 1) * interval < frameCount <= count * interval
  {
    var q := frameCount / interval;
    assert frameCount == q * interval + frameCount % interval;
    if frameCount % interval != 0 then
      assert (q + 1) * interval == q * interval + interval;
      q + 1
    else
      assert q >= 1;
      assert (q - 1) * interval == q * interval - interval;
      q
  }

  /** The range that "S-C-I" stands for. */
  function Normalised(start: int, frameCount: int, interval: int): (r: Range)
    requires 0 <= start <= INT_MAX && 0 <= frameCount <= INT_MAX && interval > 0
    ensures Sensible(r)
  {
    var count := if frameCount == 0 then SCREEN_SHOT_FRAMES_UNLIMITED else ShotCount(frameCount, interval);
    Range(true, start, count, interval)
  }

  lemma {:induction false} FewerSteps(k: int, count: int, interval: int)
    requires interval > 0
    ensures k * interval <= (count - 1) * interval <==> k <= count - 1
  {
    var more := count - 1 - k;
    assert more >= 0 ==> more * interval >= 0;
    assert more <= -1 ==> more * interval <= -interval;
    assert (count - 1) * interval == k * interval + more * interval;
  }

  /**
   A limited range selects every interval-th frame of its window, if its end fits an int, and nothing otherwise. The end
   is inside the window, so it fits if the window does.
   */
  lemma {:induction false} SelectsSteps(start: int, frameCount: int, interval: int, frame: int)
    requires 0 <= start <= INT_MAX && 0 < frameCount <= INT_MAX && interval > 0
    ensures var r := Normalised(start, frameCount, interval);
            && 0 <= (r.count - 1) * interval < frameCount
            && (start + frameCount <= INT_MAX ==> !Overflows(r))
            && (!Overflows(r) ==> EndFrame(r) < start + frameCount)
            && (IsShot(frame, r) <==>
                  !Overflows(r) && exists k: nat :: k * interval < frameCount && frame == start + k * interval)
  {
    var r := Normalised(start, frameCount, interval);
    Product(r.count - 1, interval);
    if Overflows(r) {
      OverflowSelectsNothing(r, frame);
    } else {
      StepsSelected(start, frameCount, interval, frame);
    }
  }

  lemma {:induction false} StepsSelected(start: int, frameCount: int, interval: int, frame: int)
    requires 0 <= start <= INT_MAX && 0 < frameCount <= INT_MAX && interval > 0
    requires !Overflows(Normalised(start, frameCount, interval))
    ensures IsShot(frame, Normalised(start, frameCount, interval))
       <==> exists k: nat :: k * interval < frameCount && frame == start + k * interval
  {
    var r := Normalised(start, frameCount, interval);
    EndIsBehindStart(r);
    if IsShot(frame, r) {
      var k := (frame - start) / interval;
      assert frame - start == k * interval;
      FewerSteps(k, r.count, interval);
      assert k * interval < frameCount && frame == start + k * interval;
    }
    if k: nat :| k * interval < frameCount && frame == start + k * interval {
      Product(k, interval);
      StepIsCounted(k, frameCount, interval);
      FewerSteps(k, r.count, interval);
    }
  }

  lemma {:induction false} StepIsCounted(k: int, frameCount: int, interval: int)
    requires k >= 0 && frameCount > 0 && interval > 0 && k * interval < frameCount
    ensures k <= ShotCount(frameCount, interval) - 1
  {
    var c := ShotCount(frameCount, interval);
    assert k >= c ==> (k - c) * interval >= 0;
  }

  /** The frames the api_dump layer selects for the same three numbers. */
  lemma {:induction false} DumpSelectsSteps(start: nat, frameCount: nat, interval: nat, frame: nat)
    requires frameCount > 0 && interval > 0 && start + frameCount < Dump.TWO_64
    ensures Dump.Selects(Dump.FrameRange(start, frameCount, interval), frame)
       <==> exists k: nat :: k * interval < frameCount && frame == start + k * interval
  {
    if frame >= start && (frame - start) % interval == 0 {
      var k: nat := (frame - start) / interval;
      assert frame == start + k * interval;
    }
    if k: nat :| k * interval < frameCount && frame == start + k * interval {
      Product(k, interval);
      assert frame - start == k * interval;
    }
  }

  lemma {:induction false} UnlimitedShots(start: nat, interval: nat, frame: nat)
    requires start <= INT_MAX && interval > 0
    ensures IsShot(frame, Normalised(start, 0, interval)) <==>
              if frame >= start then (frame - start) % interval == 0 else (start - frame) % interval == 0
    ensures Dump.Selects(Dump.FrameRange(start, 0, interval), frame) <==>
              frame >= start && (frame - start) % interval == 0
  {
    assert -(frame - start) == start - frame;
  }

  /**
   The screenshot layer and the api_dump layer agree on the meaning of a range, except that an unlimited range of the
   screenshot layer also selects frames before its start, and one whose end is beyond an int selects none.
   */
  lemma {:induction false} AgreesWithDumpIff(start: nat, frameCount: nat, interval: nat, frame: nat)
    requires interval > 0 && start <= INT_MAX && frameCount <= INT_MAX
    ensures IsShot(frame, Normalised(start, frameCount, interval))
            == Dump.Selects(Dump.FrameRange(start, frameCount, interval), frame)
       <==> && !(frameCount == 0 && frame < start && (start - frame) % interval == 0)
            && !(Overflows(Normalised(start, frameCount, interval))
                 && Dump.Selects(Dump.FrameRange(start, frameCount, interval), frame))
  {
    if frameCount > 0 {
      SelectsSteps(start, frameCount, interval, frame);
      DumpSelectsSteps(start, frameCount, interval, frame);
    } else {
      UnlimitedShots(start, interval, frame);
    }
  }

  // ---------- Parsing ----------

  /** Every character is a digit or a dash, and there are at most two dashes. */
  predicate Checked(s: string) {
    (forall i :: 0 <= i < |s| ==> IsDigit(s[i]) || s[i] == '-') && Dashes(s) <= 2
  }

  function Dashes(s: string): (n: nat) {
    if s == "" then 0 else Dashes(s[..|s| - 1]) + if s[|s| - 1] == '-' then 1 else 0
  }

  /** checkScreenShotFrameRangeString */
  method CheckString(s: string) returns (checkResult: bool)
    ensures checkResult == Checked(s)
  {
    var current: nat := 0;
    var dashCount := 0;
    checkResult := true;
    while current < |s|
      invariant current <= |s| && dashCount == Dashes(s[..current])
      invariant checkResult <==> forall i :: 0 <= i < current ==> IsDigit(s[i]) || s[i] == '-'
      invariant checkResult
    {
      assert s[..current + 1][..current] == s[..current];
      if '0' <= s[current] <= '9' {
        current := current + 1;
      } else if s[current] == '-' {
        dashCount := dashCount + 1;
        current := current + 1;
      } else {
        return false;
      }
    }
    assert s[..current] == s;
    checkResult := checkResult && dashCount <= 2;
  }

  /** A number beyond `int`: it stops at the limits of a 64-bit long, whose low 32 bits are kept. */
  function Narrow(v: int): (w: int)
    ensures -INT_MAX - 1 <= w <= INT_MAX
    ensures -INT_MAX - 1 <= v <= INT_MAX ==> w == v
  {
    var max: int := Dump.LONG_MAX;
    var long := if v > max then max else if v < -max - 1 then -max - 1 else v;
    var low := long % TWO_32;
    if low > INT_MAX then low - TWO_32 else low
  }

  /**
   What strtol and the conversion to int make of any number: between the limits of a long the int that differs from it
   by a multiple of 2^32, above them -1 and below them 0.
   */
  lemma {:induction false} NarrowIs(v: int)
    ensures v > 0x7FFF_FFFF_FFFF_FFFF ==> Narrow(v) == -1
    ensures v < -0x8000_0000_0000_0000 ==> Narrow(v) == 0
    ensures -0x8000_0000_0000_0000 <= v <= 0x7FFF_FFFF_FFFF_FFFF ==>
              exists q: int :: v == Narrow(v) + q * 0x1_0000_0000
  {
    if -0x8000_0000_0000_0000 <= v <= 0x7FFF_FFFF_FFFF_FFFF {
      var q := if v % TWO_32 > INT_MAX then v / TWO_32 + 1 else v / TWO_32;
      assert v == Narrow(v) + q * 0x1_0000_0000;
    }
  }

  /** The "%d" conversion of sscanf on a string without spaces and plus signs. */
  function ScanInt(u: string): (r: Option<(int, string)>)
    ensures r.Some? ==> |r.value.1| < |u| && r.value.0 <= INT_MAX
  {
    var negative := Dump.Dash(u);
    var (d, rest) := Dump.Split(if negative then u[1..] else u);
    if d == "" then None
    else
      var v: int := DigitsValue(d);
      Some((Narrow(if negative then -v else v), rest))
  }

  /** "-%d" at most `n` times. */
  function ScanMore(u: string, n: nat): (vs: seq<int>)
    ensures |vs| <= n && forall k :: 0 <= k < |vs| ==> vs[k] <= INT_MAX
    decreases n
  {
    if n == 0 || !Dump.Dash(u) then []
    else match ScanInt(u[1..])
      case None => []
      case Some((v, rest)) => [v] + ScanMore(rest, n - 1)
  }

  /** The items that "%d-%d-%d" assigns. */
  function Scan(s: string): (vs: seq<int>)
    ensures |vs| <= 3 && forall k :: 0 <= k < |vs| ==> vs[k] <= INT_MAX
  {
    match ScanInt(s)
    case None => []
    case Some((v, rest)) => [v] + ScanMore(rest, 2)
  }

  class FrameRange {
    var valid: bool
    var startFrame: int
    var count: int
    var interval: int

    constructor ()
      ensures Value() == Range(false, 0, SCREEN_SHOT_FRAMES_UNLIMITED, SCREEN_SHOT_FRAMES_INTERVAL_DEFAULT)
    {
      valid, startFrame := false, 0;
      count, interval := SCREEN_SHOT_FRAMES_UNLIMITED, SCREEN_SHOT_FRAMES_INTERVAL_DEFAULT;
    }

    function Value(): Range
      reads this
    {
      Range(valid, startFrame, count, interval)
    }

    /** initScreenShotFrameRange, writing through its second argument. */
    method Init(rangeString: string) returns (parsingStatus: int)
      modifies this
      ensures (parsingStatus, Value()) == Initialised(rangeString, old(Value()))
    {
      parsingStatus := 0;
      if rangeString != "" {
        valid := false;
        if rangeString == "all" {
          valid := true;
          startFrame := 0;
          count := SCREEN_SHOT_FRAMES_UNLIMITED;
          interval := SCREEN_SHOT_FRAMES_INTERVAL_DEFAULT;
        } else {
          var checked := CheckString(rangeString);
          if !checked {
            parsingStatus := 1;
          } else {
            parsingStatus := ParseItems(Scan(rangeString));
          }
        }
      }
    }

    /** The part of initScreenShotFrameRange behind sscanf, which has assigned `items`. */
    method ParseItems(items: seq<int>) returns (parsingStatus: int)
      requires !valid && |items| <= 3 && FitInts(items)
      modifies this
      ensures (parsingStatus, Value()) == FromItems(items, old(Value()))
    {
      parsingStatus := 0;
      var frameCount := 0;
      if |items| >= 1 { startFrame := items[0]; }
      if |items| >= 2 { frameCount := items[1]; }
      if |items| >= 3 { interval := items[2]; }
      if |items| >= 2 {
        if |items| == 2 {
          interval := SCREEN_SHOT_FRAMES_INTERVAL_DEFAULT;
        }
        if startFrame < 0 || frameCount < 0 || interval <= 0 {
          if startFrame < 0 {
            parsingStatus := 2;
          } else if frameCount < 0 {
            parsingStatus := 3;
          } else {
            parsingStatus := 4;
          }
        } else {
          valid := true;
        }
        if parsingStatus == 0 {
          if frameCount == 0 {
            count := SCREEN_SHOT_FRAMES_UNLIMITED;
          } else {
            count := frameCount / interval;
            if frameCount % interval != 0 {
              count := count + 1;
            }
          }
        }
      } else {
        parsingStatus := 1;
      }
    }
  }

  predicate FitInts(items: seq<int>) {
    forall k :: 0 <= k < |items| ==> items[k] <= INT_MAX
  }

  /** Status and range that a list of items leaves. */
  function FromItems(items: seq<int>, r: Range): (int, Range)
    requires FitInts(items)
  {
    if |items| == 0 then (1, r)
    else if |items| == 1 then (1, r.(startFrame := items[0]))
    else
      var s, c, i := items[0], items[1], if |items| == 2 then SCREEN_SHOT_FRAMES_INTERVAL_DEFAULT else items[2];
      if s < 0 then (2, r.(startFrame := s, interval := i))
      else if c < 0 then (3, r.(startFrame := s, interval := i))
      else if i <= 0 then (4, r.(startFrame := s, interval := i))
      else (0, Normalised(s, c, i))
  }

  /** Status and range after initScreenShotFrameRange. */
  function Initialised(s: string, r: Range): (int, Range) {
    if s == "" then (0, r)
    else if s == "all" then (0, Normalised(0, 0, SCREEN_SHOT_FRAMES_INTERVAL_DEFAULT))
    else if !Checked(s) then (1, r.(valid := false))
    else FromItems(Scan(s), r.(valid := false))
  }

  lemma {:induction false} FewShots(frameCount: int, interval: int)
    requires frameCount > 0 && interval > 0
    ensures ShotCount(frameCount, interval) <= frameCount
  {
    ProductGrows(ShotCount(frameCount, interval) - 1, interval);
  }

  lemma {:induction false} ProductGrows(a: int, b: int)
    requires a >= 0 && b >= 1
    ensures a * b >= a
  {
    var c := b - 1;
    assert a * c >= 0;
    assert a * b == a * c + a;
  }

  lemma {:induction false} FromItemsIffValid(items: seq<int>, r: Range)
    requires !r.valid && |items| <= 3 && FitInts(items)
    ensures var (status, r') := FromItems(items, r);
            (status == 0 <==> r'.valid) && 0 <= status <= 4 && Fine(r')
  {
    if |items| >= 2 {
      var c, i := items[1], if |items| == 2 then SCREEN_SHOT_FRAMES_INTERVAL_DEFAULT else items[2];
      if c > 0 && i > 0 {
        FewShots(c, i);
      }
    }
  }

  predicate Fine(r: Range) {
    Sensible(r) && (r.valid ==> r.startFrame <= INT_MAX && r.interval <= INT_MAX && r.count <= INT_MAX)
  }

  /** On a non-empty string, success and validity are the same, and a valid range is sensible. */
  lemma {:induction false} ZeroIffValid(s: string, r: Range)
    requires s != ""
    ensures var (status, r') := Initialised(s, r);
            (status == 0 <==> r'.valid) && 0 <= status <= 4 && Fine(r')
  {
    FromItemsIffValid(Scan(s), r.(valid := false));
  }

  // ---------- Round trips ----------

  lemma {:induction false} ScanDigits(d: string, rest: string)
    requires d != "" && AllDigits(d) && DigitsValue(d) <= INT_MAX
    requires rest != "" ==> !IsDigit(rest[0])
    ensures ScanInt(d + rest) == Some((DigitsValue(d), rest))
  {
    Dump.SplitIs(d, rest);
  }

  lemma {:induction false} ScanBehindDash(d: string, rest: string, n: nat)
    requires d != "" && AllDigits(d) && DigitsValue(d) <= INT_MAX && n > 0
    requires rest != "" ==> !IsDigit(rest[0])
    ensures ScanMore("-" + (d + rest), n) == [DigitsValue(d)] + ScanMore(rest, n - 1)
  {
    ScanDigits(d, rest);
    assert ("-" + (d + rest))[1..] == d + rest;
  }

  lemma {:induction false} ScanLast(d: string, n: nat)
    requires d != "" && AllDigits(d) && DigitsValue(d) <= INT_MAX && n > 0
    ensures ScanMore("-" + d, n) == [DigitsValue(d)]
  {
    assert d + "" == d;
    ScanBehindDash(d, "", n);
  }

  lemma {:induction false} ScanFirst(a: string, rest: string)
    requires a != "" && AllDigits(a) && DigitsValue(a) <= INT_MAX
    ensures Scan(a + ("-" + rest)) == [DigitsValue(a)] + ScanMore("-" + rest, 2)
  {
    ScanDigits(a, "-" + rest);
  }

  lemma {:induction false} DashesAppend(s: string, t: string)
    ensures Dashes(s + t) == Dashes(s) + Dashes(t)
    decreases |t|
  {
    if t == "" {
      assert s + t == s;
    } else {
      DashesAppend(s, t[..|t| - 1]);
      assert (s + t)[..|s + t| - 1] == s + t[..|t| - 1];
    }
  }

  lemma {:induction false} NoDashes(d: string)
    requires AllDigits(d)
    ensures Dashes(d) == 0
  {
    if d != "" {
      NoDashes(d[..|d| - 1]);
    }
  }

  lemma {:induction false} DashFirst(d: string)
    requires AllDigits(d)
    ensures Dashes("-" + d) == 1
  {
    DashesAppend("-", d);
    NoDashes(d);
  }

  lemma {:induction false} ByItems(s: string, k: nat, r: Range)
    requires Checked(s) && k < |s| && s[k] == '-'
    ensures Initialised(s, r) == FromItems(Scan(s), r.(valid := false))
  {
    assert ("all")[0] == 'a' && ("all")[1] == 'l' && ("all")[2] == 'l';
    assert s != "all";
  }

  predicate IsInt(d: string) {
    d != "" && AllDigits(d) && DigitsValue(d) <= INT_MAX
  }

  lemma {:induction false} PairScans(a: string, b: string)
    requires IsInt(a) && IsInt(b)
    ensures Scan(a + ("-" + b)) == [DigitsValue(a), DigitsValue(b)]
  {
    ScanFirst(a, b);
    ScanLast(b, 2);
  }

  lemma {:induction false} TripleScans(a: string, b: string, c: string)
    requires IsInt(a) && IsInt(b) && IsInt(c)
    ensures Scan(a + ("-" + (b + ("-" + c)))) == [DigitsValue(a), DigitsValue(b), DigitsValue(c)]
  {
    ScanFirst(a, b + ("-" + c));
    ScanTwo(b, c);
  }

  lemma {:induction false} ScanTwo(b: string, c: string)
    requires IsInt(b) && IsInt(c)
    ensures ScanMore("-" + (b + ("-" + c)), 2) == [DigitsValue(b), DigitsValue(c)]
  {
    var vs := ScanMore("-" + c, 1);
    ScanLast(c, 1);
    ScanBehindDash(b, "-" + c, 2);
    assert [DigitsValue(b)] + vs == [DigitsValue(b), DigitsValue(c)];
  }

  lemma {:induction false} PairShape(a: string, b: string)
    requires AllDigits(a) && AllDigits(b)
    ensures a + "-" + b == a + ("-" + b) && Checked(a + "-" + b) && (a + "-" + b)[|a|] == '-'
  {
    assert a + "-" + b == a + ("-" + b);
    NoDashes(a);
    DashFirst(b);
    DashesAppend(a, "-" + b);
  }

  lemma {:induction false} TripleShape(a: string, b: string, c: string)
    requires AllDigits(a) && AllDigits(b) && AllDigits(c)
    ensures a + "-" + b + "-" + c == a + ("-" + (b + ("-" + c)))
    ensures Checked(a + "-" + b + "-" + c) && (a + "-" + b + "-" + c)[|a|] == '-'
  {
    PairShape(a, b);
    var ab := a + "-" + b;
    assert ab + "-" + c == ab + ("-" + c);
    NoDashes(a);
    DashFirst(b);
    DashFirst(c);
    DashesAppend(a, "-" + b);
    DashesAppend(ab, "-" + c);
  }

  lemma {:induction false} PairIs(a: string, b: string, r: Range)
    requires IsInt(a) && IsInt(b)
    ensures Initialised(a + "-" + b, r) == FromItems([DigitsValue(a), DigitsValue(b)], r.(valid := false))
  {
    PairShape(a, b);
    PairScans(a, b);
    ByItems(a + "-" + b, |a|, r);
  }

  lemma {:induction false} TripleIs(a: string, b: string, c: string, r: Range)
    requires IsInt(a) && IsInt(b) && IsInt(c)
    ensures Initialised(a + "-" + b + "-" + c, r)
         == FromItems([DigitsValue(a), DigitsValue(b), DigitsValue(c)], r.(valid := false))
  {
    TripleShape(a, b, c);
    TripleScans(a, b, c);
    ByItems(a + "-" + b + "-" + c, |a|, r);
  }

  /** Two numbers come back, with interval 1. */
  lemma {:induction false} PairParses(start: nat, frameCount: nat, r: Range)
    requires start <= INT_MAX && frameCount <= INT_MAX
    ensures Initialised(Decimal(start) + "-" + Decimal(frameCount), r) == (0, Normalised(start, frameCount, 1))
  {
    DecimalRoundTrip(start);
    DecimalRoundTrip(frameCount);
    PairIs(Decimal(start), Decimal(frameCount), r);
  }

  /** Three numbers come back if the interval is positive; otherwise the string is rejected. */
  lemma {:induction false} TripleParses(start: nat, frameCount: nat, interval: nat, r: Range)
    requires start <= INT_MAX && frameCount <= INT_MAX && interval <= INT_MAX
    ensures var s := Decimal(start) + "-" + Decimal(frameCount) + "-" + Decimal(interval);
            if interval > 0 then Initialised(s, r) == (0, Normalised(start, frameCount, interval))
            else Initialised(s, r).0 == 4
  {
    DecimalRoundTrip(start);
    DecimalRoundTrip(frameCount);
    DecimalRoundTrip(interval);
    TripleIs(Decimal(start), Decimal(frameCount), Decimal(interval), r);
  }

  lemma {:induction false} ScanNegative(d: string, rest: string, v: int)
    requires d != "" && AllDigits(d) && DigitsValue(d) == v <= INT_MAX
    requires rest != "" ==> !IsDigit(rest[0])
    ensures ScanInt("-" + (d + rest)) == Some((-v, rest))
  {
    assert ("-" + (d + rest))[1..] == d + rest;
    Dump.SplitIs(d, rest);
  }

  lemma {:induction false} SignedShape(a: string, b: string)
    requires AllDigits(a) && AllDigits(b)
    ensures Checked("-" + (a + "-" + b)) && "-" + (a + "-" + b) == "-" + (a + ("-" + b))
  {
    PairShape(a, b);
    NoDashes(a);
    DashFirst(b);
    DashesAppend(a, "-" + b);
    DashesAppend("-", a + "-" + b);
    DashFirst("");
    assert "-" + "" == "-";
  }

  lemma {:induction false} SignedScans(a: string, b: string, v: int)
    requires IsInt(a) && IsInt(b) && DigitsValue(a) == v
    ensures Scan("-" + (a + ("-" + b))) == [-v] + [DigitsValue(b)]
  {
    ScanNegative(a, "-" + b, v);
    ScanLast(b, 2);
  }

  /** A range whose start has a sign is rejected with status 2, unless the start is zero. */
  lemma {:induction false} NegativeStart(start: nat, frameCount: nat, r: Range)
    requires 0 < start <= INT_MAX && frameCount <= INT_MAX
    ensures Initialised("-" + (Decimal(start) + "-" + Decimal(frameCount)), r).0 == 2
  {
    DecimalRoundTrip(start);
    DecimalRoundTrip(frameCount);
    SignedShape(Decimal(start), Decimal(frameCount));
    SignedScans(Decimal(start), Decimal(frameCount), start);
    ByItems("-" + (Decimal(start) + "-" + Decimal(frameCount)), 0, r);
  }

  lemma {:induction false} CountSigned(b: string, v: int)
    requires IsInt(b) && DigitsValue(b) == v
    ensures ScanMore("-" + ("-" + b), 2) == [-v]
  {
    assert b + "" == b && ("-" + ("-" + b))[1..] == "-" + (b + "");
    ScanNegative(b, "", v);
  }

  /** A range whose count has a sign is rejected with status 3, unless the count is zero. */
  lemma {:induction false} NegativeCount(start: nat, frameCount: nat, r: Range)
    requires start <= INT_MAX && 0 < frameCount <= INT_MAX
    ensures Initialised(Decimal(start) + "-" + ("-" + Decimal(frameCount)), r).0 == 3
  {
    DecimalRoundTrip(start);
    DecimalRoundTrip(frameCount);
    MinusZeroShape(Decimal(start), Decimal(frameCount));
    ScanFirst(Decimal(start), "-" + Decimal(frameCount));
    CountSigned(Decimal(frameCount), frameCount);
    ByItems(Decimal(start) + "-" + ("-" + Decimal(frameCount)), |Decimal(start)|, r);
  }

  lemma {:induction false} MinusZero(zero: string)
    requires zero != "" && AllDigits(zero) && DigitsValue(zero) == 0
    ensures ScanMore("-" + ("-" + zero), 2) == [0]
  {
    assert zero + "" == zero;
    Dump.SplitIs(zero, "");
    assert ("-" + zero)[1..] == zero;
    assert ScanInt("-" + zero) == Some((0, ""));
    assert ("-" + ("-" + zero))[1..] == "-" + zero;
  }

  lemma {:induction false} MinusZeroShape(a: string, zero: string)
    requires AllDigits(a) && AllDigits(zero)
    ensures a + "-" + ("-" + zero) == a + ("-" + ("-" + zero))
    ensures Checked(a + "-" + ("-" + zero)) && (a + "-" + ("-" + zero))[|a|] == '-'
  {
    var tail := "-" + ("-" + zero);
    assert a + "-" + ("-" + zero) == a + tail;
    NoDashes(a);
    DashFirst(zero);
    DashFirst("");
    assert "-" + "" == "-";
    DashesAppend("-", "-" + zero);
    DashesAppend(a, tail);
  }

  lemma {:induction false} MinusZeroIs(a: string, zero: string, r: Range)
    requires IsInt(a) && zero != "" && AllDigits(zero) && DigitsValue(zero) == 0
    ensures Initialised(a + "-" + ("-" + zero), r) == FromItems([DigitsValue(a)] + [0], r.(valid := false))
  {
    MinusZeroShape(a, zero);
    ScanFirst(a, "-" + zero);
    MinusZero(zero);
    ByItems(a + "-" + ("-" + zero), |a|, r);
  }

  /** A sign before a zero count passes, although the comment at the parser calls signed numbers errors. */
  lemma {:induction false} MinusZeroParses(start: nat, zero: string, r: Range)
    requires start <= INT_MAX && zero != "" && AllDigits(zero) && DigitsValue(zero) == 0
    ensures Initialised(Decimal(start) + "-" + ("-" + zero), r) == (0, Normalised(start, 0, 1))
  {
    DecimalRoundTrip(start);
    MinusZeroIs(Decimal(start), zero, r);
  }
}
