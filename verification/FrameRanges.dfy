/**
 The frame-range language of the api_dump layer: a comma-separated list of frames `S`, ranges `S-C` and ranges
 `S-C-I`. `ConditionalFrameOutput` holds the parser and the membership test. The main results: the parser accepts
 exactly the lists with an optional comma at the end and returns their numbers, printing and parsing are inverse,
 and the first-match loop of the membership test is membership in the union when no window hides another one.
 */
module FrameRanges {
  import opened Options
  import opened Numerals

  datatype FrameRange = FrameRange(startFrame: nat, frameCount: nat, interval: nat)

  const OUTPUT_RANGE_UNLIMITED: nat := 0
  const OUTPUT_RANGE_INTERVAL_DEFAULT: nat := 1
  const LONG_MAX: nat := 0x7FFF_FFFF_FFFF_FFFF

  // ---------- The parser, as a function ----------

  /** atol on a digit string; a number beyond the type stops at its maximum. */
  function Atol(d: string): nat
    requires AllDigits(d)
  {
    if DigitsValue(d) <= LONG_MAX then DigitsValue(d) else LONG_MAX
  }

  /** The digits a text starts with, and what is behind them. */
  function Split(u: string): (r: (string, string))
    ensures AllDigits(r.0) && |r.0| + |r.1| == |u| && (r.1 != "" ==> !IsDigit(r.1[0]))
  {
    if u == "" || !IsDigit(u[0]) then ("", u)
    else
      var (d, rest) := Split(u[1..]);
      ([u[0]] + d, rest)
  }

  lemma {:induction false} SplitJoins(u: string)
    ensures u == Split(u).0 + Split(u).1
  {
    if u != "" && IsDigit(u[0]) {
      SplitJoins(u[1..]);
      var (d, rest) := Split(u[1..]);
      assert [u[0]] + d + rest == [u[0]] + (d + rest);
    }
  }

  lemma {:induction false} SplitIs(d: string, rest: string)
    requires AllDigits(d) && (rest != "" ==> !IsDigit(rest[0]))
    ensures Split(d + rest) == (d, rest)
  {
    if d == "" {
      assert d + rest == rest;
    } else {
      SplitIs(d[1..], rest);
      assert (d + rest)[1..] == d[1..] + rest;
      assert [d[0]] + d[1..] == d;
    }
  }

  /** One element of a list: a frame, a range or a range with an interval, as digit strings. */
  datatype Elem = One(d: string) | Pair(d: string, c: string) | Triple(d: string, c: string, i: string)

  predicate IsNumber(d: string) {
    d != "" && AllDigits(d)
  }

  predicate WfElem(e: Elem) {
    match e
    case One(d) => IsNumber(d)
    case Pair(d, c) => IsNumber(d) && IsNumber(c)
    case Triple(d, c, i) => IsNumber(d) && IsNumber(c) && IsNumber(i)
  }

  function ElemText(e: Elem): string {
    match e
    case One(d) => d
    case Pair(d, c) => d + "-" + c
    case Triple(d, c, i) => d + "-" + c + "-" + i
  }

  predicate Dash(u: string) {
    u != "" && u[0] == '-'
  }

  /** The element a pass reads and what is behind it; None stands for a missing number. */
  function ReadElem(u: string): (r: Option<(Elem, string)>)
    ensures r.Some? ==> WfElem(r.value.0) && |r.value.1| < |u|
    ensures r.Some? && r.value.1 != "" ==> !IsDigit(r.value.1[0])
  {
    var (d, u1) := Split(u);
    if d == "" then None
    else if !Dash(u1) then Some((One(d), u1))
    else ReadRange(d, u1[1..])
  }

  /** The count, and the interval if there is one, of a range that starts with `d` and a dash. */
  function ReadRange(d: string, u: string): (r: Option<(Elem, string)>)
    requires IsNumber(d)
    ensures r.Some? ==> WfElem(r.value.0) && |r.value.1| < |u|
    ensures r.Some? && r.value.1 != "" ==> !IsDigit(r.value.1[0])
  {
    var (c, u2) := Split(u);
    if c == "" then None
    else if !Dash(u2) then Some((Pair(d, c), u2))
    else
      var (v, u3) := Split(u2[1..]);
      if v == "" then None else Some((Triple(d, c, v), u3))
  }

  lemma {:induction false} BehindDash(d: string, u: string, t: string, rest: string)
    requires Dash(u) && u[1..] == t + rest
    ensures d + u == d + "-" + t + rest
  {
    assert u == "-" + u[1..];
  }

  /** What is read is the text of the element. */
  lemma {:induction false} ReadElemText(u: string)
    requires ReadElem(u).Some?
    ensures u == ElemText(ReadElem(u).value.0) + ReadElem(u).value.1
  {
    var (d, u1) := Split(u);
    SplitJoins(u);
    if Dash(u1) {
      var (c, u2) := Split(u1[1..]);
      SplitJoins(u1[1..]);
      BehindDash(d, u1, c, u2);
      if Dash(u2) {
        var (v, u3) := Split(u2[1..]);
        SplitJoins(u2[1..]);
        BehindDash(d + "-" + c, u2, v, u3);
      }
    }
  }

  /** What a list has added so far: single frames and ranges. */
  datatype Parsed = Parsed(ok: bool, frames: set<nat>, ranges: seq<FrameRange>)

  function AddElem(p: Parsed, e: Elem): Parsed
    requires WfElem(e)
  {
    match e
    case One(d) => p.(frames := p.frames + {Atol(d)})
    case Pair(d, c) => p.(ranges := p.ranges + [FrameRange(Atol(d), Atol(c), OUTPUT_RANGE_INTERVAL_DEFAULT)])
    case Triple(d, c, v) => p.(ranges := p.ranges + [FrameRange(Atol(d), Atol(c), Atol(v))])
  }

  function SkipComma(u: string): string {
    if u != "" && u[0] == ',' then u[1..] else u
  }

  /** Each pass reads one element, and one comma if there is one. */
  function ParseFrom(u: string, p: Parsed): Parsed
    decreases |u|
  {
    if u == "" then p
    else match ReadElem(u)
      case None => p.(ok := false)
      case Some((e, rest)) => ParseFrom(SkipComma(rest), AddElem(p, e))
  }

  const NOTHING := Parsed(true, {}, [])

  // ---------- The language ----------

  /** The elements separated by commas, with a comma at the end if `trailing`. */
  function ListText(es: seq<Elem>, trailing: bool): string {
    if es == [] then ""
    else if |es| == 1 then ElemText(es[0]) + if trailing then "," else ""
    else ElemText(es[0]) + "," + ListText(es[1..], trailing)
  }

  predicate WfList(es: seq<Elem>) {
    forall i :: 0 <= i < |es| ==> WfElem(es[i])
  }

  function AddAll(p: Parsed, es: seq<Elem>): Parsed
    requires WfList(es)
    decreases |es|
  {
    if es == [] then p else AddAll(AddElem(p, es[0]), es[1..])
  }

  lemma {:induction false} DashShape(a: string, b: string, rest: string)
    ensures a + "-" + b + rest == a + ("-" + (b + rest)) && ("-" + (b + rest))[1..] == b + rest
    ensures Dash("-" + (b + rest))
  {
  }

  /** An element with a comma or nothing behind it is read back. */
  lemma {:induction false} ReadElemIs(e: Elem, rest: string)
    requires WfElem(e) && (rest != "" ==> rest[0] == ',')
    ensures ReadElem(ElemText(e) + rest) == Some((e, rest))
  {
    match e
    case One(d) => SplitIs(d, rest);
    case Pair(d, c) => ReadPairIs(d, c, rest);
    case Triple(d, c, v) => ReadTripleIs(d, c, v, rest);
  }

  lemma {:induction false} ReadPairIs(d: string, c: string, rest: string)
    requires IsNumber(d) && IsNumber(c) && (rest != "" ==> rest[0] == ',')
    ensures ReadElem(d + "-" + c + rest) == Some((Pair(d, c), rest))
  {
    DashShape(d, c, rest);
    SplitIs(d, "-" + (c + rest));
    SplitIs(c, rest);
  }

  lemma {:induction false} ReadTripleIs(d: string, c: string, v: string, rest: string)
    requires IsNumber(d) && IsNumber(c) && IsNumber(v) && (rest != "" ==> rest[0] == ',')
    ensures ReadElem(d + "-" + c + "-" + v + rest) == Some((Triple(d, c, v), rest))
  {
    var r2 := "-" + (v + rest);
    DashShape(d + "-" + c, v, rest);
    DashShape(d, c, r2);
    DashShape(c, v, rest);
    SplitIs(d, "-" + (c + r2));
    SplitIs(c, r2);
    SplitIs(v, rest);
  }

  /** What stands behind the first element of a list. */
  function Behind(es: seq<Elem>, trailing: bool): string {
    if |es| > 1 then "," + ListText(es[1..], trailing) else if trailing then "," else ""
  }

  lemma {:induction false} ListTextSplit(es: seq<Elem>, trailing: bool)
    requires es != []
    ensures ListText(es, trailing) == ElemText(es[0]) + Behind(es, trailing)
    ensures SkipComma(Behind(es, trailing)) == ListText(es[1..], trailing)
    ensures Behind(es, trailing) != "" ==> Behind(es, trailing)[0] == ','
  {
    if |es| > 1 {
      var e, tail := ElemText(es[0]), ListText(es[1..], trailing);
      assert e + "," + tail == e + ("," + tail);
    } else {
      assert es[1..] == [];
    }
  }

  lemma {:induction false} ParseList(es: seq<Elem>, trailing: bool, p: Parsed)
    requires WfList(es)
    ensures ParseFrom(ListText(es, trailing), p) == AddAll(p, es)
    decreases |es|
  {
    if es != [] {
      ListTextSplit(es, trailing);
      ReadElemIs(es[0], Behind(es, trailing));
      ParseList(es[1..], trailing, AddElem(p, es[0]));
    }
  }

  /** Every string of the language is accepted, and gives the numbers of its elements. */
  lemma {:induction false} ListAccepted(es: seq<Elem>, trailing: bool)
    requires WfList(es)
    ensures ParseFrom(ListText(es, trailing), NOTHING) == AddAll(NOTHING, es)
  {
    ParseList(es, trailing, NOTHING);
  }

  /** Whatever is accepted is a list. */
  lemma {:induction false} AcceptedIsList(u: string, p: Parsed) returns (es: seq<Elem>, trailing: bool)
    requires ParseFrom(u, p).ok
    ensures WfList(es) && u == ListText(es, trailing) && (u != "" <==> es != [])
    decreases |u|
  {
    if u == "" {
      es, trailing := [], false;
    } else {
      var (e, rest) := ReadElem(u).value;
      var next := SkipComma(rest);
      var es', t := AcceptedIsList(next, AddElem(p, e));
      es, trailing := [e] + es', if next == "" then rest != "" else t;
      ReadElemText(u);
      RestIsBehind(rest, next, es, es', trailing);
      ListTextSplit(es, trailing);
    }
  }

  /** Without a comma the next pass would find no number. */
  lemma {:induction false} RestIsBehind(rest: string, next: string, es: seq<Elem>, es': seq<Elem>, trailing: bool)
    requires next == SkipComma(rest) && (next != "" ==> ReadElem(next).Some?)
    requires rest != "" ==> !IsDigit(rest[0])
    requires |es| > 0 && es[1..] == es' && (next != "" <==> es' != [])
    requires next != "" ==> next == ListText(es', trailing)
    requires next == "" ==> trailing == (rest != "")
    ensures rest == Behind(es, trailing)
  {
    if next != "" {
      assert Split(next).0 != "" && IsDigit(next[0]);
    }
  }

  /** The parser accepts exactly the non-empty lists with an optional comma at the end. */
  lemma {:induction false} AcceptsIff(s: string)
    requires s != ""
    ensures ParseFrom(s, NOTHING).ok <==> exists es, trailing :: es != [] && WfList(es) && s == ListText(es, trailing)
  {
    if ParseFrom(s, NOTHING).ok {
      var es, trailing := AcceptedIsList(s, NOTHING);
      assert es != [] && WfList(es) && s == ListText(es, trailing);
    }
    if es, trailing :| es != [] && WfList(es) && s == ListText(es, trailing) {
      ListAccepted(es, trailing);
      AddAllOk(NOTHING, es);
    }
  }

  lemma {:induction false} AddAllOk(p: Parsed, es: seq<Elem>)
    requires WfList(es)
    ensures AddAll(p, es).ok == p.ok
    decreases |es|
  {
    if es != [] {
      AddAllOk(AddElem(p, es[0]), es[1..]);
    }
  }

  // ---------- Printing and parsing numbers ----------

  datatype Spec = Frame(n: nat) | Range(s: nat, c: nat) | Stepped(s: nat, c: nat, i: nat)

  function PrintSpec(x: Spec): Elem {
    match x
    case Frame(n) => One(Decimal(n))
    case Range(s, c) => Pair(Decimal(s), Decimal(c))
    case Stepped(s, c, i) => Triple(Decimal(s), Decimal(c), Decimal(i))
  }

  function PrintSpecs(xs: seq<Spec>): (es: seq<Elem>)
    ensures |es| == |xs| && WfList(es)
  {
    seq(|xs|, k requires 0 <= k < |xs| => PrintSpec(xs[k]))
  }

  predicate Fits(x: Spec) {
    match x
    case Frame(n) => n <= LONG_MAX
    case Range(s, c) => s <= LONG_MAX && c <= LONG_MAX
    case Stepped(s, c, i) => s <= LONG_MAX && c <= LONG_MAX && i <= LONG_MAX
  }

  function FrameOf(x: Spec): set<nat> {
    if x.Frame? then {x.n} else {}
  }

  /** A range without an interval has interval 1. */
  function RangeOf(x: Spec): seq<FrameRange> {
    match x
    case Frame(_) => []
    case Range(s, c) => [FrameRange(s, c, 1)]
    case Stepped(s, c, i) => [FrameRange(s, c, i)]
  }

  /** The single frames of a list. */
  function FramesIn(xs: seq<Spec>): set<nat> {
    if xs == [] then {} else FramesIn(xs[..|xs| - 1]) + FrameOf(xs[|xs| - 1])
  }

  /** The ranges of a list in order. */
  function RangesIn(xs: seq<Spec>): seq<FrameRange> {
    if xs == [] then [] else RangesIn(xs[..|xs| - 1]) + RangeOf(xs[|xs| - 1])
  }

  lemma {:induction false} AddAllSnoc(p: Parsed, es: seq<Elem>, e: Elem)
    requires WfList(es) && WfElem(e)
    ensures AddAll(p, es + [e]) == AddElem(AddAll(p, es), e)
    decreases |es|
  {
    if es == [] {
      assert es + [e] == [e] && [e][1..] == [];
    } else {
      AddAllSnoc(AddElem(p, es[0]), es[1..], e);
      assert (es + [e])[1..] == es[1..] + [e];
    }
  }

  lemma {:induction false} PrintSpecsSnoc(xs: seq<Spec>)
    requires xs != []
    ensures PrintSpecs(xs) == PrintSpecs(xs[..|xs| - 1]) + [PrintSpec(xs[|xs| - 1])] && WfElem(PrintSpec(xs[|xs| - 1]))
  {
  }

  lemma {:induction false} PrintedAdds(xs: seq<Spec>)
    requires forall k :: 0 <= k < |xs| ==> Fits(xs[k])
    ensures AddAll(NOTHING, PrintSpecs(xs)) == Parsed(true, FramesIn(xs), RangesIn(xs))
    decreases |xs|
  {
    if xs != [] {
      var init, x := xs[..|xs| - 1], xs[|xs| - 1];
      PrintedAdds(init);
      PrintSpecsSnoc(xs);
      AddAllSnoc(NOTHING, PrintSpecs(init), PrintSpec(x));
      AddPrinted(Parsed(true, FramesIn(init), RangesIn(init)), x);
    }
  }

  lemma {:induction false} AddPrinted(p: Parsed, x: Spec)
    requires Fits(x)
    ensures AddElem(p, PrintSpec(x)) == Parsed(p.ok, p.frames + FrameOf(x), p.ranges + RangeOf(x))
  {
    match x
    case Frame(n) => DecimalRoundTrip(n);
    case Range(s, c) =>
      DecimalRoundTrip(s);
      DecimalRoundTrip(c);
    case Stepped(s, c, i) =>
      DecimalRoundTrip(s);
      DecimalRoundTrip(c);
      DecimalRoundTrip(i);
  }

  /** Printing a list of frames and ranges and parsing it back gives the same frames and the same ranges. */
  lemma {:induction false} PrintParse(xs: seq<Spec>)
    requires forall k :: 0 <= k < |xs| ==> Fits(xs[k])
    ensures ParseFrom(ListText(PrintSpecs(xs), false), NOTHING) == Parsed(true, FramesIn(xs), RangesIn(xs))
  {
    PrintedAdds(xs);
    ListAccepted(PrintSpecs(xs), false);
  }

  /** A space behind a comma is an error, although the comment at the parser lists "3-6, 10-2" as valid. */
  lemma {:induction false} SpaceRejected(e: Elem, rest: string, p: Parsed)
    requires WfElem(e)
    ensures !ParseFrom(ElemText(e) + (", " + rest), p).ok
  {
    ReadElemIs(e, ", " + rest);
    NoNumberBehindSpace(rest);
  }

  lemma {:induction false} NoNumberBehindSpace(rest: string)
    ensures SkipComma(", " + rest) == " " + rest && ReadElem(" " + rest) == None
  {
    assert (" " + rest)[0] == ' ' && (", " + rest)[1..] == " " + rest;
    assert Split(" " + rest).0 == "";
  }

  // ---------- Membership ----------

  const TWO_64: nat := 0x1_0000_0000_0000_0000

  /** The window of a range; the sum is an unsigned 64-bit one. */
  predicate Covers(r: FrameRange, n: nat) {
    r.startFrame <= n && (r.frameCount == OUTPUT_RANGE_UNLIMITED || (r.startFrame + r.frameCount) % TWO_64 > n)
  }

  predicate Selects(r: FrameRange, n: nat)
    requires r.interval > 0
  {
    Covers(r, n) && (n - r.startFrame) % r.interval == 0
  }

  /** The first range whose window covers the frame. */
  function FirstCover(ranges: seq<FrameRange>, n: nat): (r: Option<FrameRange>)
    ensures r.Some? ==> r.value in ranges && Covers(r.value, n)
    ensures r.None? ==> forall x :: x in ranges ==> !Covers(x, n)
  {
    if ranges == [] then None
    else if Covers(ranges[0], n) then Some(ranges[0])
    else FirstCover(ranges[1..], n)
  }

  /** The first window that covers the frame decides; single frames count only outside of all windows. */
  predicate InRange(frames: set<nat>, ranges: seq<FrameRange>, n: nat)
    requires FirstCover(ranges, n).Some? ==> FirstCover(ranges, n).value.interval > 0
  {
    match FirstCover(ranges, n)
    case Some(r) => Selects(r, n)
    case None => n in frames
  }

  /** The test of a frame; None where it would divide by zero. */
  function Decide(frames: set<nat>, ranges: seq<FrameRange>, n: nat): (d: Option<bool>)
    ensures d.None? <==> FirstCover(ranges, n).Some? && FirstCover(ranges, n).value.interval == 0
    ensures d.Some? ==> d.value == InRange(frames, ranges, n)
  {
    match FirstCover(ranges, n)
    case Some(r) => if r.interval == 0 then None else Some(Selects(r, n))
    case None => Some(n in frames)
  }

  predicate PositiveIntervals(ranges: seq<FrameRange>) {
    forall r :: r in ranges ==> r.interval > 0
  }

  /** Membership in the union of all ranges and frames. */
  predicate InUnion(frames: set<nat>, ranges: seq<FrameRange>, n: nat)
    requires PositiveIntervals(ranges)
  {
    n in frames || exists r :: r in ranges && Selects(r, n)
  }

  /** Range `i` is the first over frame `n` and rejects it, but a single frame or a later range selects it. */
  predicate Hides(frames: set<nat>, ranges: seq<FrameRange>, i: nat, n: nat)
    requires i < |ranges| && PositiveIntervals(ranges)
  {
    && Covers(ranges[i], n) && !Selects(ranges[i], n) && (forall j :: 0 <= j < i ==> !Covers(ranges[j], n))
    && (n in frames || exists j :: i < j < |ranges| && Selects(ranges[j], n))
  }

  predicate SomethingHidden(frames: set<nat>, ranges: seq<FrameRange>, n: nat)
    requires PositiveIntervals(ranges)
  {
    exists i: nat :: i < |ranges| && Hides(frames, ranges, i, n)
  }

  lemma {:induction false} FirstCoverAt(ranges: seq<FrameRange>, n: nat) returns (i: nat)
    requires FirstCover(ranges, n).Some?
    ensures i < |ranges| && ranges[i] == FirstCover(ranges, n).value && forall j :: 0 <= j < i ==> !Covers(ranges[j], n)
  {
    if Covers(ranges[0], n) {
      i := 0;
    } else {
      var k := FirstCoverAt(ranges[1..], n);
      i := k + 1;
      forall j | 0 <= j < i
        ensures !Covers(ranges[j], n)
      {
        if j > 0 {
          assert ranges[j] == ranges[1..][j - 1];
        }
      }
    }
  }

  /** On one frame the two tests agree exactly if nothing is hidden there. */
  lemma {:induction false} AgreeIffNotHidden(frames: set<nat>, ranges: seq<FrameRange>, n: nat)
    requires PositiveIntervals(ranges)
    ensures InRange(frames, ranges, n) == InUnion(frames, ranges, n) <==> !SomethingHidden(frames, ranges, n)
  {
    if FirstCover(ranges, n).Some? {
      var i := FirstCoverAt(ranges, n);
      if !InRange(frames, ranges, n) && InUnion(frames, ranges, n) {
        if n !in frames {
          var r :| r in ranges && Selects(r, n);
          var j :| 0 <= j < |ranges| && ranges[j] == r;
          assert i < j;
        }
        assert Hides(frames, ranges, i, n);
      }
      if k: nat :| k < |ranges| && Hides(frames, ranges, k, n) {
        assert !(k < i) && !(i < k);
      }
    }
  }

  /** Behind `m` there are no single frames, and every window has begun and, if it is limited, ended. */
  predicate Settled(frames: set<nat>, ranges: seq<FrameRange>, m: nat) {
    && (forall f :: f in frames ==> f < m)
    && (forall r :: r in ranges ==>
          r.startFrame <= m && (r.frameCount != OUTPUT_RANGE_UNLIMITED ==> r.startFrame + r.frameCount <= m))
  }

  /** The product of the intervals. */
  function Period(ranges: seq<FrameRange>): (p: nat)
    requires PositiveIntervals(ranges)
    ensures p > 0
  {
    if ranges == [] then 1
    else
      assert forall r :: r in ranges[1..] ==> r in ranges;
      ProductPositive(ranges[0].interval, Period(ranges[1..]));
      ranges[0].interval * Period(ranges[1..])
  }

  lemma {:induction false} ProductPositive(a: nat, b: nat)
    requires a > 0 && b > 0
    ensures a * b > 0
  {
  }

  lemma {:induction false} Commute(a: nat, b: nat)
    ensures a * b == b * a
  {
  }

  lemma {:induction false} PeriodIsMultiple(ranges: seq<FrameRange>, r: FrameRange) returns (k: nat)
    requires PositiveIntervals(ranges) && r in ranges
    ensures Period(ranges) == k * r.interval
  {
    var rest := ranges[1..];
    assert forall x :: x in rest ==> x in ranges;
    if ranges[0] == r {
      k := Period(rest);
      Commute(ranges[0].interval, k);
    } else {
      var k1 := PeriodIsMultiple(rest, r);
      k := ranges[0].interval * k1;
      Regroup(ranges[0].interval, k1, r.interval);
    }
  }

  lemma {:induction false} Regroup(a: nat, b: nat, c: nat)
    ensures a * (b * c) == (a * b) * c && a * b >= 0
  {
  }

  lemma {:induction false} SameRemainder(a: nat, k: nat, m: nat)
    requires m > 0
    ensures (a + k * m) % m == a % m
    decreases k
  {
    if k == 0 {
      assert k * m == 0;
    } else {
      SameRemainder(a, k - 1, m);
      var b := a + (k - 1) * m;
      assert a + k * m == b + m;
      AddOnce(b, m);
    }
  }

  lemma {:induction false} AddOnce(b: nat, m: nat)
    requires m > 0
    ensures (b + m) % m == b % m
  {
    var q, r := b / m, b % m;
    var q', r' := (b + m) / m, (b + m) % m;
    assert b == q * m + r && b + m == q' * m + r';
    var z := q' - q - 1;
    assert z * m == r - r';
    assert z >= 1 ==> z * m >= m;
    assert z <= -1 ==> z * m + m <= 0;
  }

  /** Behind a settled frame every range repeats with the product of the intervals. */
  lemma {:induction false} RepeatsOnce(frames: set<nat>, ranges: seq<FrameRange>, r: FrameRange, m: nat, n: nat, q: nat)
    requires PositiveIntervals(ranges) && Bounded(ranges) && Settled(frames, ranges, m) && r in ranges && n >= m
    ensures Covers(r, n + q * Period(ranges)) == Covers(r, n) && Selects(r, n + q * Period(ranges)) == Selects(r, n)
  {
    var p := Period(ranges);
    var k := PeriodIsMultiple(ranges, r);
    assert q * p >= 0;
    Regroup(q, k, r.interval);
    SameRemainder(n - r.startFrame, q * k, r.interval);
    assert n + q * p - r.startFrame == (n - r.startFrame) + (q * k) * r.interval;
  }

  lemma {:induction false} HiddenRepeats(frames: set<nat>, ranges: seq<FrameRange>, m: nat, n: nat, q: nat)
    requires PositiveIntervals(ranges) && Bounded(ranges) && Settled(frames, ranges, m) && n >= m
    requires SomethingHidden(frames, ranges, n + q * Period(ranges))
    ensures SomethingHidden(frames, ranges, n)
  {
    var far := n + q * Period(ranges);
    assert q * Period(ranges) >= 0;
    var i: nat :| i < |ranges| && Hides(frames, ranges, i, far);
    forall r | r in ranges
      ensures Covers(r, far) == Covers(r, n) && Selects(r, far) == Selects(r, n)
    {
      RepeatsOnce(frames, ranges, r, m, n, q);
    }
    var j :| i < j < |ranges| && Selects(ranges[j], far);
    assert Selects(ranges[j], n);
    assert Hides(frames, ranges, i, n);
  }

  /**
   A whole list of parsed ranges and frames means their union on every frame exactly if it hides nothing on the frames
   up to one product of the intervals behind the end of its single frames, its limited windows and its starts.
   */
  lemma {:induction false} ListIsUnionIff(frames: set<nat>, ranges: seq<FrameRange>, m: nat)
    requires PositiveIntervals(ranges) && Bounded(ranges) && Settled(frames, ranges, m)
    ensures (forall n: nat :: InRange(frames, ranges, n) == InUnion(frames, ranges, n))
       <==> forall n: nat :: n < m + Period(ranges) ==> !SomethingHidden(frames, ranges, n)
  {
    var p := Period(ranges);
    forall n: nat
      ensures InRange(frames, ranges, n) == InUnion(frames, ranges, n) <==> !SomethingHidden(frames, ranges, n)
    {
      AgreeIffNotHidden(frames, ranges, n);
    }
    if forall n: nat :: n < m + p ==> !SomethingHidden(frames, ranges, n) {
      forall n: nat
        ensures !SomethingHidden(frames, ranges, n)
      {
        if n >= m + p {
          var q, near: nat := (n - m) / p, m + (n - m) % p;
          assert n == near + q * p;
          if SomethingHidden(frames, ranges, n) {
            HiddenRepeats(frames, ranges, m, near, q);
          }
        }
      }
    }
  }

  /** No two windows overlap: no frame is covered at two places of the list. */
  ghost predicate Disjoint(ranges: seq<FrameRange>) {
    forall i, j, n: nat :: 0 <= i < j < |ranges| && Covers(ranges[i], n) ==> !Covers(ranges[j], n)
  }

  ghost predicate FramesOutside(frames: set<nat>, ranges: seq<FrameRange>) {
    forall n, r :: n in frames && r in ranges ==> !Covers(r, n)
  }

  /** With disjoint windows and no single frame inside one, the first match is membership in the union. */
  lemma {:induction false} DisjointIsUnion(frames: set<nat>, ranges: seq<FrameRange>, n: nat)
    requires PositiveIntervals(ranges) && Disjoint(ranges) && FramesOutside(frames, ranges)
    ensures InRange(frames, ranges, n) == InUnion(frames, ranges, n)
  {
    if FirstCover(ranges, n).Some? {
      var first := FirstCover(ranges, n).value;
      var i :| 0 <= i < |ranges| && ranges[i] == first;
      forall r | r in ranges && r != first
        ensures !Selects(r, n)
      {
        var j :| 0 <= j < |ranges| && ranges[j] == r;
        assert Covers(ranges[i], n);
        if j < i {
          assert !Covers(ranges[j], n);
        }
      }
    }
  }

  /** Overlapping windows: frame 2 of "0-9-3,0-9-2" is in the second range but is not dumped. */
  lemma {:induction false} OverlapHides()
    ensures var ranges := [FrameRange(0, 9, 3), FrameRange(0, 9, 2)];
            !InRange({}, ranges, 2) && InUnion({}, ranges, 2)
  {
    var ranges := [FrameRange(0, 9, 3), FrameRange(0, 9, 2)];
    assert FirstCover(ranges, 2) == Some(ranges[0]);
    assert ranges[1] in ranges && Selects(ranges[1], 2);
  }

  lemma {:induction false} ZeroZeroParses()
    ensures ParseFrom("0-0", NOTHING) == Parsed(true, {}, [FrameRange(0, 0, 1)])
  {
    var xs := [Range(0, 0)];
    PrintParse(xs);
    assert Decimal(0) == "0";
    assert PrintSpecs(xs) == [Pair("0", "0")];
    assert ListText([Pair("0", "0")], false) == "0-0";
    OneSpec(Range(0, 0));
  }

  lemma {:induction false} OneSpec(x: Spec)
    requires x.Range?
    ensures FramesIn([x]) == {} && RangesIn([x]) == [FrameRange(x.s, x.c, 1)]
  {
    var xs := [x];
    assert xs[..0] == [] && FramesIn([]) == {} && RangesIn([]) == [];
  }

  /** The string the settings never parse, "0-0", would select every frame. */
  lemma {:induction false} ZeroZeroIsEverything(n: nat)
    ensures ParseFrom("0-0", NOTHING) == Parsed(true, {}, [FrameRange(0, 0, 1)])
    ensures InRange({}, [FrameRange(0, 0, 1)], n)
  {
    ZeroZeroParses();
    var all := FrameRange(0, 0, 1);
    assert Covers(all, n) && (n - 0) % 1 == 0;
    assert FirstCover([all], n) == Some(all);
  }

  ghost predicate Bounded(ranges: seq<FrameRange>) {
    forall r :: r in ranges ==> r.startFrame <= LONG_MAX && r.frameCount <= LONG_MAX && r.interval <= LONG_MAX
  }

  /** The numbers of a parsed list never overflow the window test. */
  lemma {:induction false} ParsedBounded(u: string, p: Parsed)
    requires Bounded(p.ranges)
    ensures Bounded(ParseFrom(u, p).ranges)
    ensures forall r, n: nat :: r in ParseFrom(u, p).ranges ==>
              (Covers(r, n) <==> r.startFrame <= n && (r.frameCount == 0 || n < r.startFrame + r.frameCount))
    decreases |u|
  {
    if u != "" && ReadElem(u).Some? {
      var (e, rest) := ReadElem(u).value;
      ParsedBounded(SkipComma(rest), AddElem(p, e));
    }
  }

  // ---------- The class ----------

  class ConditionalFrameOutput {
    var useConditionalOutput: bool
    var frames: set<nat>
    var ranges: seq<FrameRange>

    constructor ()
      ensures !useConditionalOutput && frames == {} && ranges == []
    {
      useConditionalOutput, frames, ranges := false, {}, [];
    }

    ghost function State(): Parsed
      reads this
    {
      Parsed(true, frames, ranges)
    }

    /** parseNumber: the digits at a position, as a value and a length. */
    static method ParseNumber(str: string, currentChar: nat) returns (value: nat, length: nat)
      requires currentChar <= |str|
      ensures var d := Split(str[currentChar..]).0;
              length == |d| && currentChar + length <= |str| && value == if length > 0 then Atol(d) else 0
      ensures Split(str[currentChar..]).1 == str[currentChar + length..]
    {
      length := 0;
      ghost var u := str[currentChar..];
      while currentChar + length < |str| && '0' <= str[currentChar + length] <= '9'
        invariant currentChar + length <= |str| && AllDigits(u[..length])
      {
        assert u[..length + 1] == u[..length] + [u[length]];
        length := length + 1;
      }
      SplitIs(u[..length], u[length..]);
      assert u == u[..length] + u[length..];
      assert u[length..] == str[currentChar + length..];
      assert str[currentChar..currentChar + length] == u[..length];
      value := if length > 0 then Atol(str[currentChar..currentChar + length]) else 0;
    }

    /** parseConditionalFrameRange. Each pass consumes at least one character. */
    method Parse(str: string) returns (ok: bool)
      modifies this
      ensures var p := ParseFrom(str, old(State()));
              ok == (str != "" && p.ok) && frames == p.frames && ranges == p.ranges
      ensures useConditionalOutput == (old(useConditionalOutput) || ok)
    {
      var currentChar: nat := 0;
      if str == "" {
        return false;
      }
      assert str[0..] == str;
      ghost var goal := ParseFrom(str, State());
      while currentChar < |str|
        invariant currentChar <= |str| && ParseFrom(str[currentChar..], State()) == goal
        invariant useConditionalOutput == old(useConditionalOutput)
        decreases |str| - currentChar
      {
        var next := Pass(str, currentChar);
        if next.None? {
          return false;
        }
        currentChar := next.value;
      }
      assert str[currentChar..] == "";
      useConditionalOutput := true;
      return true;
    }

    /** One pass of the loop: an element and the comma behind it. Gives the new position. */
    method Pass(str: string, start: nat) returns (next: Option<nat>)
      requires start < |str|
      modifies this`frames, this`ranges
      ensures next.None? ==> ParseFrom(str[start..], old(State())) == State().(ok := false)
      ensures next.Some? ==> start < next.value <= |str|
      ensures next.Some? ==> ParseFrom(str[start..], old(State())) == ParseFrom(str[next.value..], State())
    {
      ghost var rest := str[start..];
      var ok, j := ParsePass(str, start);
      if !ok {
        return None;
      }
      j := SkipOneComma(str, j);
      assert ParseFrom(rest, old(State())) == ParseFrom(str[j..], State());
      return Some(j);
    }

    static method SkipOneComma(str: string, j: nat) returns (next: nat)
      requires j <= |str|
      ensures j <= next <= |str| && str[next..] == SkipComma(str[j..])
    {
      next := j;
      if j < |str| && str[j] == ',' {
        assert str[j..][1..] == str[j + 1..];
        next := j + 1;
      }
    }

    /** One frame or range. The source also tests for the end of the string after each dash, with the same outcome. */
    method ParsePass(str: string, start: nat) returns (ok: bool, next: nat)
      requires start < |str|
      modifies this`frames, this`ranges
      ensures var r := ReadElem(str[start..]);
              ok == r.Some? && start <= next <= |str|
              && (ok ==> start < next && str[next..] == r.value.1 && State() == AddElem(old(State()), r.value.0))
              && (!ok ==> State() == old(State()))
    {
      var frameNumber, n := ParseNumber(str, start);
      if n <= 0 {
        return false, start;
      }
      next := start + n;
      if next < |str| && str[next] == '-' {
        assert str[next..][1..] == str[next + 1..];
        ok, next := ParseRange(str, next + 1, frameNumber, Split(str[start..]).0);
      } else {
        frames := frames + {frameNumber};
        ok := true;
      }
    }

    method ParseRange(str: string, start: nat, frameNumber: nat, ghost d: string) returns (ok: bool, next: nat)
      requires start <= |str| && IsNumber(d) && frameNumber == Atol(d)
      modifies this`ranges
      ensures var r := ReadRange(d, str[start..]);
              ok == r.Some? && start <= next <= |str|
              && (ok ==> start < next && str[next..] == r.value.1 && State() == AddElem(old(State()), r.value.0))
              && (!ok ==> State() == old(State()))
    {
      var frameCount, c := ParseNumber(str, start);
      if c <= 0 {
        return false, start;
      }
      next := start + c;
      if next < |str| && str[next] == '-' {
        assert str[next..][1..] == str[next + 1..];
        var interval, i := ParseNumber(str, next + 1);
        if i <= 0 {
          return false, start;
        }
        next := next + 1 + i;
        ranges := ranges + [FrameRange(frameNumber, frameCount, interval)];
      } else {
        ranges := ranges + [FrameRange(frameNumber, frameCount, OUTPUT_RANGE_INTERVAL_DEFAULT)];
      }
      return true, next;
    }

    /** isFrameInRange. None stands for the division by zero of a window with interval 0, as "5-3-0" parses to. */
    method IsFrameInRange(frameNumber: nat) returns (b: Option<bool>)
      ensures b == if useConditionalOutput then Decide(frames, ranges, frameNumber) else Some(true)
    {
      if !useConditionalOutput {
        return Some(true);
      }
      for i := 0 to |ranges|
        invariant FirstCover(ranges[i..], frameNumber) == FirstCover(ranges, frameNumber)
      {
        var range := ranges[i];
        assert ranges[i..][0] == range && ranges[i..][1..] == ranges[i + 1..];
        if range.startFrame <= frameNumber {
          if range.frameCount == OUTPUT_RANGE_UNLIMITED
             || (range.startFrame + range.frameCount) % TWO_64 > frameNumber {
            if range.interval == OUTPUT_RANGE_INTERVAL_DEFAULT {
              return Some(true);
            } else if range.interval == 0 {
              return None;
            } else {
              return Some((frameNumber - range.startFrame) % range.interval == 0);
            }
          }
        }
      }
      return Some(frameNumber in frames);
    }
  }
}
