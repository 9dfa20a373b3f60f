/**
 How the generator builds the control tree: it takes the matches of three regular expressions in the order of
 the text, keeps the open tags and a list of finished controls with their depths, and hands the deeper ones to
 the control that an `@end` finishes. `BuildTree` is that loop. `ScanTemplate` and `BuildBalanced` say that on
 a balanced template it gives exactly the tree of a recursive-descent parse.
 */
module TemplateBuild {
  import opened Options
  import opened Template

  type Loops = seq<(nat, Control)>

  // ---------- One list of tags out of three ----------

  /** The merge: the tag with the smallest start first. */
  function Merge(fors: seq<Tok>, ifs: seq<Tok>, ends: seq<Tok>): seq<Tok>
    decreases |fors| + |ifs| + |ends|
  {
    if fors != [] && (ifs == [] || fors[0].start < ifs[0].start) && (ends == [] || fors[0].start < ends[0].start)
      then [fors[0]] + Merge(fors[1..], ifs, ends)
    else if ifs != [] && (ends == [] || ifs[0].start < ends[0].start) then [ifs[0]] + Merge(fors, ifs[1..], ends)
    else if ends != [] then [ends[0]] + Merge(fors, ifs, ends[1..])
    else []
  }

  function OfKind(ts: seq<Tok>, kind: TokKind): seq<Tok> {
    if ts == [] then []
    else if ts[0].kind == kind then [ts[0]] + OfKind(ts[1..], kind)
    else OfKind(ts[1..], kind)
  }

  lemma {:induction false} OfKindIn(ts: seq<Tok>, kind: TokKind)
    ensures forall t :: t in OfKind(ts, kind) ==> t in ts && t.kind == kind
  {
    if ts != [] {
      OfKindIn(ts[1..], kind);
    }
  }

  lemma {:induction false} MergeHead(t: Tok, fors: seq<Tok>, ifs: seq<Tok>, ends: seq<Tok>)
    requires fors != [] ==> t.start < fors[0].start
    requires ifs != [] ==> t.start < ifs[0].start
    requires ends != [] ==> t.start < ends[0].start
    ensures [t] + Merge(fors, ifs, ends)
         == match t.kind
            case ForTok => Merge([t] + fors, ifs, ends)
            case IfTok => Merge(fors, [t] + ifs, ends)
            case EndTok => Merge(fors, ifs, [t] + ends)
  {
    match t.kind
    case ForTok => assert ([t] + fors)[1..] == fors;
    case IfTok => assert ([t] + ifs)[1..] == ifs;
    case EndTok => assert ([t] + ends)[1..] == ends;
  }

  /** Separating tags in the order of the text by kind and merging them again changes nothing. */
  lemma {:induction false} MergeOfKinds(ts: seq<Tok>)
    requires Increasing(ts)
    ensures Merge(OfKind(ts, ForTok), OfKind(ts, IfTok), OfKind(ts, EndTok)) == ts
  {
    if ts != [] {
      MergeOfKinds(ts[1..]);
      OfKindLater(ts, ForTok);
      OfKindLater(ts, IfTok);
      OfKindLater(ts, EndTok);
      MergeHead(ts[0], OfKind(ts[1..], ForTok), OfKind(ts[1..], IfTok), OfKind(ts[1..], EndTok));
    }
  }

  lemma {:induction false} OfKindLater(ts: seq<Tok>, kind: TokKind)
    requires Increasing(ts) && ts != []
    ensures var k := OfKind(ts[1..], kind); k != [] ==> ts[0].start < k[0].start
  {
    OfKindIn(ts[1..], kind);
    var k := OfKind(ts[1..], kind);
    if k != [] {
      assert k[0] in ts[1..];
    }
  }

  // ---------- The loop, one tag at a time ----------

  datatype Result = Built(loops: Loops) | Failed

  /** Takes the controls deeper than `depth` off the end of the list; gives what stays and the children. */
  function TakeDeeper(loops: Loops, depth: nat): (r: (Loops, seq<Control>))
  {
    if loops == [] || loops[|loops| - 1].0 <= depth then (loops, [])
    else
      var (keep, children) := TakeDeeper(loops[..|loops| - 1], depth);
      (keep, children + [loops[|loops| - 1].1])
  }

  /** What an `@end` does to the list of finished controls. */
  function Finish(loops: Loops, open: Tok, end: Tok, depth: nat): Loops {
    var (keep, children) := TakeDeeper(loops, depth);
    keep + [(depth, Control((open.start, open.end), (end.start, end.end), end.text, open.cond, children))]
  }

  predicate HasKind(ts: seq<Tok>, kind: TokKind) {
    exists i :: 0 <= i < |ts| && ts[i].kind == kind
  }

  /**
   The loop over the merged tags, with the open tags and the finished controls. It goes on while there is an
   `@foreach` or an `@end` left, so `@if` tags behind the last of them are never looked at; an opening tag
   with no `@end` behind it is an error, and so is an `@end` that does not match the last open tag.
   */
  function Scan(ts: seq<Tok>, open: seq<Tok>, loops: Loops): Result {
    if !HasKind(ts, ForTok) && !HasKind(ts, EndTok) then Built(loops)
    else if !HasKind(ts, EndTok) then Failed
    else if ts[0].kind != EndTok then Scan(ts[1..], open + [ts[0]], loops)
    else if open == [] || open[|open| - 1].text != ts[0].text then Failed
    else Scan(ts[1..], open[..|open| - 1], Finish(loops, open[|open| - 1], ts[0], |open| - 1))
  }

  // ---------- On a balanced template ----------

  function AtDepth(cs: seq<Control>, depth: nat): (r: Loops)
    ensures |r| == |cs|
  {
    if cs == [] then [] else AtDepth(cs[..|cs| - 1], depth) + [(depth, cs[|cs| - 1])]
  }

  lemma {:induction false} AtDepthAt(cs: seq<Control>, depth: nat, i: nat)
    requires i < |cs|
    ensures AtDepth(cs, depth)[i] == (depth, cs[i])
    decreases |cs|
  {
    if i < |cs| - 1 {
      AtDepthAt(cs[..|cs| - 1], depth, i);
    }
  }

  lemma {:induction false} LoopsRegroup(a: Loops, b: Loops, x: (nat, Control))
    ensures a + (b + [x]) == a + b + [x]
    ensures (a + b + [x])[..|a| + |b|] == a + b
  {
  }

  ghost predicate NoDeeper(loops: Loops, depth: nat) {
    forall i :: 0 <= i < |loops| ==> loops[i].0 <= depth
  }

  lemma {:induction false} TakeDeeperIs(loops: Loops, cs: seq<Control>, depth: nat)
    requires NoDeeper(loops, depth)
    ensures TakeDeeper(loops + AtDepth(cs, depth + 1), depth) == (loops, cs)
    decreases |cs|
  {
    if cs == [] {
      assert loops + AtDepth(cs, depth + 1) == loops;
    } else {
      var init, last := cs[..|cs| - 1], cs[|cs| - 1];
      TakeDeeperIs(loops, init, depth);
      LoopsRegroup(loops, AtDepth(init, depth + 1), (depth + 1, last));
      assert init + [last] == cs;
    }
  }

  lemma {:induction false} HasEndCat(a: seq<Tok>, b: seq<Tok>, kind: TokKind)
    requires HasKind(b, kind)
    ensures HasKind(a + b, kind)
  {
    var i :| 0 <= i < |b| && b[i].kind == kind;
    assert (a + b)[|a| + i].kind == kind;
  }

  lemma {:induction false} AtDepthCons(loops: Loops, c: Control, cs: seq<Control>, depth: nat)
    ensures loops + [(depth, c)] + AtDepth(cs, depth) == loops + AtDepth([c] + cs, depth)
    decreases |cs|
  {
    var all := [c] + cs;
    if cs == [] {
      assert all[..0] == [];
      assert AtDepth(all, depth) == [(depth, c)];
      assert loops + [(depth, c)] + [] == loops + [(depth, c)];
    } else {
      var init, last := cs[..|cs| - 1], cs[|cs| - 1];
      AtDepthCons(loops, c, init, depth);
      assert all[..|all| - 1] == [c] + init && all[|all| - 1] == last;
      LoopsRegroup(loops + [(depth, c)], AtDepth(init, depth), (depth, last));
      LoopsRegroup(loops, AtDepth([c] + init, depth), (depth, last));
    }
  }

  /** Scanning a whole template adds its controls, at the depth of the open tags, and nothing else. */
  lemma {:induction false} ScanTemplate(t: Template, tail: seq<Tok>, open: seq<Tok>, loops: Loops)
    requires Wf(t) && NoDeeper(loops, |open|)
    ensures Scan(TokensOf(t) + tail, open, loops) == Scan(tail, open, loops + AtDepth(ControlsOf(t), |open|))
    decreases t
  {
    match t
    case End(_) =>
      assert TokensOf(t) + tail == tail;
      assert loops + AtDepth([], |open|) == loops;
    case Seg(_, b, rest) =>
      var c := ControlOf(b);
      ScanBlock(b, TokensOf(rest) + tail, open, loops);
      ScanTemplate(rest, tail, open, loops + [(|open|, c)]);
      ScanBoth(BlockTokens(b), TokensOf(rest), tail, open, loops, c, ControlsOf(rest));
  }

  /** Tags that add one control, then tags that add more. */
  lemma {:induction false} ScanBoth(a: seq<Tok>, b: seq<Tok>, tail: seq<Tok>, open: seq<Tok>, loops: Loops,
                                    c: Control, cs: seq<Control>)
    requires Scan(a + (b + tail), open, loops) == Scan(b + tail, open, loops + [(|open|, c)])
    requires Scan(b + tail, open, loops + [(|open|, c)])
             == Scan(tail, open, loops + [(|open|, c)] + AtDepth(cs, |open|))
    ensures Scan(a + b + tail, open, loops) == Scan(tail, open, loops + AtDepth([c] + cs, |open|))
  {
    TokRegroup(a, b, tail);
    AtDepthCons(loops, c, cs, |open|);
  }

  lemma {:induction false} TokRegroup(a: seq<Tok>, b: seq<Tok>, c: seq<Tok>)
    ensures a + b + c == a + (b + c)
  {
  }

  lemma {:induction false} TokBracket(first: Tok, body: seq<Tok>, last: Tok, tail: seq<Tok>)
    ensures [first] + body + [last] + tail == [first] + (body + ([last] + tail))
  {
  }

  lemma {:induction false} ScanBlock(b: Block, tail: seq<Tok>, open: seq<Tok>, loops: Loops)
    requires WfBlock(b) && NoDeeper(loops, |open|)
    ensures Scan(BlockTokens(b) + tail, open, loops) == Scan(tail, open, loops + [(|open|, ControlOf(b))])
    decreases b
  {
    var inside := open + [b.open];
    ScanTemplate(b.body, [b.close] + tail, inside, loops);
    ScanAround(b.open, b.close, TokensOf(b.body), tail, open, inside, loops, ControlsOf(b.body));
  }

  /** The two tags of a block around tags that add the controls `cs`. */
  lemma {:induction false} ScanAround(first: Tok, last: Tok, toks: seq<Tok>, tail: seq<Tok>, open: seq<Tok>,
                                      inside: seq<Tok>, loops: Loops, cs: seq<Control>)
    requires inside == open + [first]
    requires first.kind != EndTok && last.kind == EndTok && first.text == last.text && NoDeeper(loops, |open|)
    requires Scan(toks + ([last] + tail), inside, loops) == Scan([last] + tail, inside, loops + AtDepth(cs, |inside|))
    ensures Scan([first] + toks + [last] + tail, open, loops)
         == Scan(tail, open, loops + [(|open|, Control((first.start, first.end), (last.start, last.end), last.text,
                                                       first.cond, cs))])
  {
    TokBracket(first, toks, last, tail);
    HasEndCat(toks, [last] + tail, EndTok) by {
      assert ([last] + tail)[0].kind == EndTok;
    }
    ScanOpen(first, toks + ([last] + tail), open, loops);
    ScanEnd(first, last, tail, open, loops, cs);
  }

  lemma {:induction false} ScanOpen(first: Tok, inner: seq<Tok>, open: seq<Tok>, loops: Loops)
    requires first.kind != EndTok && HasKind(inner, EndTok)
    ensures Scan([first] + inner, open, loops) == Scan(inner, open + [first], loops)
  {
    HasEndCat([first], inner, EndTok);
  }

  lemma {:induction false} ScanEnd(first: Tok, last: Tok, tail: seq<Tok>, open: seq<Tok>, loops: Loops,
                                   cs: seq<Control>)
    requires last.kind == EndTok && first.text == last.text && NoDeeper(loops, |open|)
    ensures Scan([last] + tail, open + [first], loops + AtDepth(cs, |open| + 1))
         == Scan(tail, open, loops + [(|open|, Control((first.start, first.end), (last.start, last.end), last.text,
                                                       first.cond, cs))])
  {
    TakeDeeperIs(loops, cs, |open|);
    assert ([last] + tail)[0].kind == EndTok;
    assert (open + [first])[..|open|] == open;
    assert ([last] + tail)[1..] == tail;
  }

  /** On the tags of a template the loop gives its control tree, all of it at depth 0. */
  lemma {:induction false} BuildBalanced(t: Template)
    requires Wf(t)
    ensures Scan(TokensOf(t), [], []) == Built(AtDepth(ControlsOf(t), 0))
  {
    ScanTemplate(t, [], [], []);
    assert TokensOf(t) + [] == TokensOf(t);
    var none: Loops := [];
    assert none + AtDepth(ControlsOf(t), 0) == AtDepth(ControlsOf(t), 0);
  }

  // ---------- Which lists of tags are accepted ----------

  /** The tags up to the last `@end`. */
  function UpToLastEnd(ts: seq<Tok>): (r: seq<Tok>)
    ensures r <= ts
  {
    if !HasKind(ts, EndTok) then [] else [ts[0]] + UpToLastEnd(ts[1..])
  }

  function Texts(open: seq<Tok>): seq<string> {
    seq(|open|, i requires 0 <= i < |open| => open[i].text)
  }

  lemma {:induction false} UpToShape(ts: seq<Tok>)
    requires HasKind(ts, EndTok)
    ensures ts != [] && UpToLastEnd(ts) != [] && UpToLastEnd(ts)[0] == ts[0]
    ensures UpToLastEnd(ts)[1..] == UpToLastEnd(ts[1..])
    ensures |UpToLastEnd(ts)| <= |ts| && |UpToLastEnd(ts[1..])| <= |ts[1..]|
    ensures ts[|UpToLastEnd(ts)|..] == ts[1..][|UpToLastEnd(ts[1..])|..]
  {
  }

  lemma {:induction false} TextsSnoc(open: seq<Tok>, t: Tok)
    ensures Texts(open + [t]) == Texts(open) + [t.text] && Texts(open + [t])[..|open|] == Texts(open)
  {
  }

  /**
   Exactly which tag lists the loop accepts: every `@end` matches the last open tag and no `@foreach` comes
   behind the last `@end`. Tags still open at the end, and `@if` tags behind the last `@end`, pass unnoticed.
   */
  lemma {:induction false} ScanAccepts(ts: seq<Tok>, open: seq<Tok>, loops: Loops)
    ensures Scan(ts, open, loops).Built?
       <==> Match(UpToLastEnd(ts), Texts(open)).Some? && !HasKind(ts[|UpToLastEnd(ts)|..], ForTok)
    decreases |ts|
  {
    if HasKind(ts, EndTok) {
      UpToShape(ts);
      if ts[0].kind != EndTok {
        ScanAccepts(ts[1..], open + [ts[0]], loops);
        TextsSnoc(open, ts[0]);
      } else if open != [] && open[|open| - 1].text == ts[0].text {
        ScanAccepts(ts[1..], open[..|open| - 1], Finish(loops, open[|open| - 1], ts[0], |open| - 1));
        TextsSnoc(open[..|open| - 1], open[|open| - 1]);
        assert open[..|open| - 1] + [open[|open| - 1]] == open;
      }
    } else {
      assert UpToLastEnd(ts) == [] && ts[0..] == ts;
    }
  }

  /** An `@if` that is never closed is accepted, though the template is not balanced. */
  lemma {:induction false} UnclosedIfAccepted(start: nat, cond: Option<string>)
    ensures var ts := [Tok(IfTok, start, start + 5, "if", cond)];
            Scan(ts, [], []) == Built([]) && !Balanced(ts)
  {
    var ts := [Tok(IfTok, start, start + 5, "if", cond)];
    assert ts[1..] == [];
    var stack: seq<string> := [] + [ts[0].text];
    assert Match(ts, []) == Match(ts[1..], stack) == Some(stack);
  }

  // ---------- The loop as it runs ----------

  predicate AllOf(ts: seq<Tok>, kind: TokKind) {
    forall i :: 0 <= i < |ts| ==> ts[i].kind == kind
  }

  lemma {:induction false} MergeHas(fors: seq<Tok>, ifs: seq<Tok>, ends: seq<Tok>)
    requires AllOf(fors, ForTok) && AllOf(ifs, IfTok) && AllOf(ends, EndTok)
    ensures HasKind(Merge(fors, ifs, ends), ForTok) <==> fors != []
    ensures HasKind(Merge(fors, ifs, ends), EndTok) <==> ends != []
    decreases |fors| + |ifs| + |ends|
  {
    var ts := Merge(fors, ifs, ends);
    if ts != [] {
      if ts[0].kind == ForTok {
        MergeHas(fors[1..], ifs, ends);
      } else if ts[0].kind == IfTok {
        MergeHas(fors, ifs[1..], ends);
      } else {
        MergeHas(fors, ifs, ends[1..]);
      }
      HasKindCons(ts, ForTok);
      HasKindCons(ts, EndTok);
    }
  }

  lemma {:induction false} HasKindCons(ts: seq<Tok>, kind: TokKind)
    requires ts != []
    ensures HasKind(ts, kind) <==> ts[0].kind == kind || HasKind(ts[1..], kind)
  {
    if HasKind(ts, kind) && ts[0].kind != kind {
      var i :| 0 <= i < |ts| && ts[i].kind == kind;
      assert ts[1..][i - 1].kind == kind;
    }
    if HasKind(ts[1..], kind) {
      HasEndCat([ts[0]], ts[1..], kind);
      assert [ts[0]] + ts[1..] == ts;
    }
  }

  /** The next tag of the merge, by the comparisons of the loop. */
  lemma {:induction false} MergeStep(fors: seq<Tok>, ifs: seq<Tok>, ends: seq<Tok>, f: nat, i: nat, e: nat)
    requires f <= |fors| && i <= |ifs| && e < |ends|
    ensures var ts := Merge(fors[f..], ifs[i..], ends[e..]);
            && ts != []
            && if f < |fors| && (i == |ifs| || fors[f].start < ifs[i].start) && fors[f].start < ends[e].start then
                 ts[0] == fors[f] && ts[1..] == Merge(fors[f + 1..], ifs[i..], ends[e..])
               else if i < |ifs| && ifs[i].start < ends[e].start then
                 ts[0] == ifs[i] && ts[1..] == Merge(fors[f..], ifs[i + 1..], ends[e..])
               else
                 ts[0] == ends[e] && ts[1..] == Merge(fors[f..], ifs[i..], ends[e + 1..])
  {
    assert ends[e..][1..] == ends[e + 1..];
    if f < |fors| {
      assert fors[f..][1..] == fors[f + 1..];
    }
    if i < |ifs| {
      assert ifs[i..][1..] == ifs[i + 1..];
    }
  }

  /** The while loop of endFile. `nextEnd.start()` raises an error once the `@end` tags are used up. */
  method BuildTree(fors: seq<Tok>, ifs: seq<Tok>, ends: seq<Tok>) returns (r: Result)
    requires AllOf(fors, ForTok) && AllOf(ifs, IfTok) && AllOf(ends, EndTok)
    ensures r == Scan(Merge(fors, ifs, ends), [], [])
  {
    var loops: Loops := [];
    var unassignedControls: seq<Tok> := [];
    var depth: int := 0;
    var f, i, e := 0, 0, 0;
    while f < |fors| || e < |ends|
      invariant f <= |fors| && i <= |ifs| && e <= |ends|
      invariant depth == |unassignedControls|
      invariant Scan(Merge(fors[f..], ifs[i..], ends[e..]), unassignedControls, loops)
                == Scan(Merge(fors, ifs, ends), [], [])
      decreases |fors| - f + |ifs| - i + |ends| - e
    {
      MergeHas(fors[f..], ifs[i..], ends[e..]);
      if e == |ends| {
        return Failed;
      }
      MergeStep(fors, ifs, ends, f, i, e);
      if f < |fors| && (i == |ifs| || fors[f].start < ifs[i].start) && fors[f].start < ends[e].start {
        depth := depth + 1;
        unassignedControls := unassignedControls + [fors[f]];
        f := f + 1;
      } else if i < |ifs| && ifs[i].start < ends[e].start {
        depth := depth + 1;
        unassignedControls := unassignedControls + [ifs[i]];
        i := i + 1;
      } else {
        depth := depth - 1;
        if unassignedControls == [] {
          return Failed;
        }
        var start := unassignedControls[|unassignedControls| - 1];
        unassignedControls := unassignedControls[..|unassignedControls| - 1];
        if start.text != ends[e].text {
          return Failed;
        }
        loops := AppendControl(loops, start, ends[e], depth);
        e := e + 1;
      }
    }
    MergeHas(fors[f..], ifs[i..], ends[e..]);
    r := Built(loops);
  }

  /** Makes the control of an `@end` and moves the deeper controls into it, the last one first. */
  method AppendControl(loops0: Loops, start: Tok, end: Tok, depth: nat) returns (loops: Loops)
    ensures loops == Finish(loops0, start, end, depth)
  {
    loops := loops0;
    var children: seq<Control> := [];
    assert TakeDeeper(loops, depth).1 + children == TakeDeeper(loops, depth).1;
    while |loops| > 0 && depth < loops[|loops| - 1].0
      invariant TakeDeeper(loops0, depth) == (TakeDeeper(loops, depth).0, TakeDeeper(loops, depth).1 + children)
    {
      var last := loops[|loops| - 1].1;
      assert TakeDeeper(loops, depth).1 + children
          == TakeDeeper(loops[..|loops| - 1], depth).1 + ([last] + children);
      children := [last] + children;
      loops := loops[..|loops| - 1];
    }
    assert [] + children == children;
    loops := loops + [(depth, Control((start.start, start.end), (end.start, end.end), end.text, start.cond, children))];
  }
}
