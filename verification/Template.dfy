/**
 The template language of the api_dump generator: text with nested `@foreach ... @end` and `@if ... @end` blocks. A tag
 is a match of a regular expression, and neighbouring matches may overlap: the patterns take the white space around a
 tag, so two tags with an empty line between them share it. A `Template` is what a recursive-descent parser makes of
 a format string and its tags: the tags of each block and, between them, Python's slices of the string, which are empty
 where tags overlap.
 */
module Template {
  import opened Options

  // ---------- Tags and templates ----------

  datatype TokKind = ForTok | IfTok | EndTok

  /** A match of one of the three regular expressions. */
  datatype Tok = Tok(kind: TokKind, start: nat, end: nat, text: string, cond: Option<string>)

  /** The control tree the generator builds; a position is a pair of a start and an end. */
  datatype Control = Control(startPos: (nat, nat), endPos: (nat, nat), text: string, cond: Option<string>,
                             children: seq<Control>)

  datatype Block = Block(open: Tok, close: Tok, body: Template)

  /** Literals and blocks in turn; there is a literal, possibly empty, before and behind every block. */
  datatype Template = End(lit: string) | Seg(lit: string, block: Block, rest: Template)

  /** An `@end` with the same text closes the `@foreach` or `@if` of a block. */
  predicate WfBlock(b: Block) {
    b.open.kind != EndTok && b.close.kind == EndTok && b.open.text == b.close.text && Wf(b.body)
  }

  predicate Wf(t: Template) {
    t.Seg? ==> WfBlock(t.block) && Wf(t.rest)
  }

  function BlockTokens(b: Block): seq<Tok>
    decreases b
  {
    [b.open] + TokensOf(b.body) + [b.close]
  }

  /** The tags of a template in order. */
  function TokensOf(t: Template): seq<Tok>
    decreases t
  {
    match t
    case End(_) => []
    case Seg(_, b, rest) => BlockTokens(b) + TokensOf(rest)
  }

  function ControlOf(b: Block): Control
    decreases b
  {
    Control((b.open.start, b.open.end), (b.close.start, b.close.end), b.close.text, b.open.cond, ControlsOf(b.body))
  }

  function ControlsOf(t: Template): seq<Control>
    decreases t
  {
    match t
    case End(_) => []
    case Seg(_, b, rest) => [ControlOf(b)] + ControlsOf(rest)
  }

  // ---------- Slices ----------

  /** s[i:j] in Python, for positions that are not negative. */
  function Slice(s: string, i: nat, j: nat): string {
    var hi := if j < |s| then j else |s|;
    if i < hi then s[i..hi] else ""
  }

  /** Every literal is the slice between the tags around it; the template stands from `p` to `stop`. */
  predicate LitsOf(s: string, p: nat, t: Template, stop: nat)
    decreases t
  {
    match t
    case End(l) => l == Slice(s, p, stop)
    case Seg(l, b, rest) =>
      && l == Slice(s, p, b.open.start)
      && LitsOf(s, b.open.end, b.body, b.close.start)
      && LitsOf(s, b.close.end, rest, stop)
  }

  // ---------- Recursive descent ----------

  /** The tags in the order of the text; they may overlap. */
  predicate Increasing(ts: seq<Tok>) {
    forall i, j :: 0 <= i < j < |ts| ==> ts[i].start < ts[j].start
  }

  /** What is left of the open tags in `stack` after `ts`, or None if some `@end` does not match. */
  function Match(ts: seq<Tok>, stack: seq<string>): Option<seq<string>> {
    if ts == [] then Some(stack)
    else if ts[0].kind != EndTok then Match(ts[1..], stack + [ts[0].text])
    else if stack == [] || stack[|stack| - 1] != ts[0].text then None
    else Match(ts[1..], stack[..|stack| - 1])
  }

  predicate Balanced(ts: seq<Tok>) {
    Match(ts, []) == Some([])
  }

  /**
   Parses the text from position `p` with the tags `ts` up to the first `@end` that closes no block opened here; gives
   the template and the tags that are left.
   */
  function Descend(s: string, ts: seq<Tok>, p: nat): (r: Option<(Template, seq<Tok>)>)
    ensures r.Some? ==> |r.value.1| <= |ts| && (r.value.1 == [] || r.value.1[0].kind == EndTok)
    decreases |ts|
  {
    if ts == [] then Some((End(Slice(s, p, |s|)), []))
    else if ts[0].kind == EndTok then Some((End(Slice(s, p, ts[0].start)), ts))
    else
      match Descend(s, ts[1..], ts[0].end)
      case None => None
      case Some((body, rest)) =>
        if rest == [] || rest[0].text != ts[0].text then None
        else
          match Descend(s, rest[1..], rest[0].end)
          case None => None
          case Some((behind, left)) => Some((Seg(Slice(s, p, ts[0].start), Block(ts[0], rest[0], body), behind), left))
  }

  function StopAt(s: string, ts: seq<Tok>): nat {
    if ts == [] then |s| else ts[0].start
  }

  /** `t` is well formed and has exactly the tags and the literals it was read from, up to the tags `rest`. */
  ghost predicate Faithful(s: string, ts: seq<Tok>, p: nat, t: Template, rest: seq<Tok>) {
    Wf(t) && ts == TokensOf(t) + rest && LitsOf(s, p, t, StopAt(s, rest))
  }

  lemma {:induction false} DescendSound(s: string, ts: seq<Tok>, p: nat)
    requires Descend(s, ts, p).Some?
    ensures Faithful(s, ts, p, Descend(s, ts, p).value.0, Descend(s, ts, p).value.1)
    decreases |ts|
  {
    if ts == [] || ts[0].kind == EndTok {
      assert [] + ts == ts;
    } else {
      var (body, rest) := Descend(s, ts[1..], ts[0].end).value;
      var (behind, left) := Descend(s, rest[1..], rest[0].end).value;
      DescendSound(s, ts[1..], ts[0].end);
      DescendSound(s, rest[1..], rest[0].end);
      TagsAround(ts, TokensOf(body), rest, TokensOf(behind), left);
    }
  }

  lemma {:induction false} TagsAround(ts: seq<Tok>, body: seq<Tok>, rest: seq<Tok>, behind: seq<Tok>, left: seq<Tok>)
    requires ts != [] && rest != [] && ts[1..] == body + rest && rest[1..] == behind + left
    ensures ts == [ts[0]] + body + [rest[0]] + behind + left
  {
    assert ts == [ts[0]] + ts[1..] && rest == [rest[0]] + rest[1..];
  }

  /** A descent succeeds on what the stack discipline accepts, and leaves what closes the tags opened before. */
  lemma {:induction false} DescendComplete(s: string, ts: seq<Tok>, p: nat, stack: seq<string>)
    requires Match(ts, stack) == Some([])
    ensures Descend(s, ts, p).Some? && Match(Descend(s, ts, p).value.1, stack) == Some([])
    decreases |ts|
  {
    if ts != [] && ts[0].kind != EndTok {
      DescendComplete(s, ts[1..], ts[0].end, stack + [ts[0].text]);
      var rest := Descend(s, ts[1..], ts[0].end).value.1;
      assert (stack + [ts[0].text])[..|stack|] == stack;
      DescendComplete(s, rest[1..], rest[0].end, stack);
    }
  }

  /**
   Every balanced list of tags, overlapping or not: recursive descent reads all of it, and the result has exactly its
   tags, in order, and the slices between them.
   */
  lemma {:induction false} BalancedIsTemplate(s: string, ts: seq<Tok>)
    requires Balanced(ts)
    ensures Descend(s, ts, 0).Some? && Descend(s, ts, 0).value.1 == []
    ensures var t := Descend(s, ts, 0).value.0; Wf(t) && TokensOf(t) == ts && LitsOf(s, 0, t, |s|)
  {
    DescendComplete(s, ts, 0, []);
    DescendSound(s, ts, 0);
    var (t, rest) := Descend(s, ts, 0).value;
    assert rest == [];
    assert TokensOf(t) + rest == TokensOf(t);
  }

  // ---------- Tiling ----------

  function Span(s: string, t: Tok): string {
    Slice(s, t.start, t.end)
  }

  /** Literals and tag spans, put together. */
  function Text(s: string, t: Template): string
    decreases t
  {
    match t
    case End(l) => l
    case Seg(l, b, rest) => l + Span(s, b.open) + Text(s, b.body) + Span(s, b.close) + Text(s, rest)
  }

  /** The same from a list of tags, from position `p` to `stop`. */
  function Laid(s: string, ts: seq<Tok>, p: nat, stop: nat): string
    decreases |ts|
  {
    if ts == [] then Slice(s, p, stop)
    else Slice(s, p, ts[0].start) + Span(s, ts[0]) + Laid(s, ts[1..], ts[0].end, stop)
  }

  lemma {:induction false} LaidCat(s: string, a: seq<Tok>, mid: Tok, b: seq<Tok>, p: nat, stop: nat)
    ensures Laid(s, a + [mid] + b, p, stop) == Laid(s, a, p, mid.start) + Span(s, mid) + Laid(s, b, mid.end, stop)
    decreases |a|
  {
    var all := a + [mid] + b;
    if a == [] {
      assert all[0] == mid && all[1..] == b;
    } else {
      assert all[0] == a[0] && all[1..] == a[1..] + [mid] + b;
      LaidCat(s, a[1..], mid, b, a[0].end, stop);
      FiveStrings(Slice(s, p, a[0].start) + Span(s, a[0]), Laid(s, a[1..], a[0].end, mid.start), Span(s, mid),
                  Laid(s, b, mid.end, stop));
    }
  }

  lemma {:induction false} FiveStrings(a: string, b: string, c: string, d: string)
    ensures a + (b + c + d) == (a + b) + c + d
  {
  }

  lemma {:induction false} Bracket(open: Tok, inner: seq<Tok>, close: Tok, behind: seq<Tok>)
    ensures [open] + inner + [close] + behind == [open] + (inner + [close] + behind)
  {
  }

  lemma {:induction false} LaidOpen(s: string, open: Tok, ts: seq<Tok>, rest: seq<Tok>, p: nat, stop: nat)
    requires ts == [open] + rest
    ensures Laid(s, ts, p, stop) == Slice(s, p, open.start) + Span(s, open) + Laid(s, rest, open.end, stop)
  {
    assert ts[0] == open && ts[1..] == rest;
  }

  lemma {:induction false} LaidBlock(s: string, open: Tok, inner: seq<Tok>, close: Tok,
                             behind: seq<Tok>, p: nat, stop: nat)
    ensures Laid(s, [open] + inner + [close] + behind, p, stop)
         == Slice(s, p, open.start) + Span(s, open) + Laid(s, inner, open.end, close.start) + Span(s, close)
            + Laid(s, behind, close.end, stop)
  {
    var rest := inner + [close] + behind;
    Bracket(open, inner, close, behind);
    LaidOpen(s, open, [open] + rest, rest, p, stop);
    LaidCat(s, inner, close, behind, open.end, stop);
    FiveStrings(Slice(s, p, open.start) + Span(s, open), Laid(s, inner, open.end, close.start), Span(s, close),
                Laid(s, behind, close.end, stop));
  }

  lemma {:induction false} TextIsLaid(s: string, t: Template, p: nat, stop: nat)
    requires LitsOf(s, p, t, stop)
    ensures Text(s, t) == Laid(s, TokensOf(t), p, stop)
    decreases t
  {
    match t
    case End(_) =>
    case Seg(l, b, rest) =>
      TextIsLaid(s, b.body, b.open.end, b.close.start);
      TextIsLaid(s, rest, b.close.end, stop);
      LaidBlock(s, b.open, TokensOf(b.body), b.close, TokensOf(rest), p, stop);
  }

  /** How many characters lie in two neighbouring tags, or behind `p` in the first. */
  function Overlaps(ts: seq<Tok>, p: nat): nat
    decreases |ts|
  {
    if ts == [] then 0
    else (if ts[0].start < p then p - ts[0].start else 0) + Overlaps(ts[1..], ts[0].end)
  }

  predicate Inside(ts: seq<Tok>, n: nat) {
    forall i :: 0 <= i < |ts| ==> ts[i].start < ts[i].end <= n
  }

  /** Every shared character is there twice, and nothing else is lost or doubled. */
  lemma {:induction false} LaidLength(s: string, ts: seq<Tok>, p: nat)
    requires Inside(ts, |s|) && p <= |s|
    ensures |Laid(s, ts, p, |s|)| == |s| - p + Overlaps(ts, p)
    ensures Overlaps(ts, p) == 0 ==> Laid(s, ts, p, |s|) == s[p..]
    decreases |ts|
  {
    if ts == [] {
      assert p == |s| ==> s[p..] == "";
    } else {
      var t, rest := ts[0], Laid(s, ts[1..], ts[0].end, |s|);
      LaterInside(ts, |s|);
      LaidLength(s, ts[1..], t.end);
      PiecesLength(s, p, t, rest);
    }
  }

  lemma {:induction false} LaterInside(ts: seq<Tok>, n: nat)
    requires ts != [] && Inside(ts, n)
    ensures ts[0].start < ts[0].end <= n && Inside(ts[1..], n)
  {
  }

  lemma {:induction false} PiecesLength(s: string, p: nat, t: Tok, rest: string)
    requires p <= |s| && t.start < t.end <= |s|
    ensures |Slice(s, p, t.start) + Span(s, t) + rest|
         == (if t.start < p then 0 else t.start - p) + (t.end - t.start) + |rest|
    ensures p <= t.start && rest == s[t.end..] ==> Slice(s, p, t.start) + Span(s, t) + rest == s[p..]
  {
    if p <= t.start {
      assert Slice(s, p, t.start) == s[p..t.start];
      assert s[p..t.start] + s[t.start..t.end] + s[t.end..] == s[p..];
    }
  }

  predicate Apart(ts: seq<Tok>) {
    forall i :: 0 <= i < |ts| - 1 ==> ts[i].end <= ts[i + 1].start
  }

  lemma {:induction false} OverlapsIff(ts: seq<Tok>, p: nat)
    ensures Overlaps(ts, p) == 0 <==> Apart(ts) && (ts != [] ==> p <= ts[0].start)
    decreases |ts|
  {
    if ts != [] {
      var rest := ts[1..];
      OverlapsIff(rest, ts[0].end);
      assert forall i :: 0 <= i < |rest| ==> rest[i] == ts[i + 1];
      if Apart(rest) && (rest != [] ==> ts[0].end <= rest[0].start) {
        forall i | 0 <= i < |ts| - 1
          ensures ts[i].end <= ts[i + 1].start
        {
          if i > 0 {
            assert rest[i - 1].end <= rest[i].start;
          }
        }
      }
    }
  }

  /**
   Literals and tag spans of a balanced template, put together, give the format string back exactly if no two
   consecutive tags overlap; otherwise they are longer by the characters that lie in two tags.
   */
  lemma {:induction false} TilesIff(s: string, ts: seq<Tok>)
    requires Balanced(ts) && Inside(ts, |s|)
    ensures Descend(s, ts, 0).Some?
    ensures var t := Descend(s, ts, 0).value.0;
            (Text(s, t) == s <==> Apart(ts)) && |Text(s, t)| == |s| + Overlaps(ts, 0)
  {
    BalancedIsTemplate(s, ts);
    var t := Descend(s, ts, 0).value.0;
    TextIsLaid(s, t, 0, |s|);
    LaidLength(s, ts, 0);
    OverlapsIff(ts, 0);
    assert s[0..] == s;
  }

  /**
   Two blocks with an empty line between them, as in the generator's own templates: the newline that ends the empty line
   lies in the first `@end` and in the second `@if`, and is in no literal.
   */
  lemma {:induction false} EmptyLineOverlaps()
    ensures var s := "@if(x)\nA\n@end if\n\n@if(y)\nB\n@end if\n";
            var ts := [Tok(IfTok, 0, 7, "if", Some("x")), Tok(EndTok, 9, 18, "if", None),
                       Tok(IfTok, 17, 25, "if", Some("y")), Tok(EndTok, 27, 35, "if", None)];
            && Increasing(ts) && Inside(ts, |s|) && Balanced(ts) && !Apart(ts)
            && Descend(s, ts, 0).Some? && Text(s, Descend(s, ts, 0).value.0) != s
            && |Text(s, Descend(s, ts, 0).value.0)| == |s| + 1
  {
    var s := "@if(x)\nA\n@end if\n\n@if(y)\nB\n@end if\n";
    var a, b := Tok(IfTok, 0, 7, "if", Some("x")), Tok(EndTok, 9, 18, "if", None);
    var c, d := Tok(IfTok, 17, 25, "if", Some("y")), Tok(EndTok, 27, 35, "if", None);
    var ts := [a, b, c, d];
    assert |s| == 35;
    TwoBlocks(a, b, c, d);
    assert ts[1].end > ts[2].start;
    TilesIff(s, ts);
  }

  lemma {:induction false} TwoBlocks(a: Tok, b: Tok, c: Tok, d: Tok)
    requires a.kind != EndTok && b.kind == EndTok && c.kind != EndTok && d.kind == EndTok
    requires a.text == b.text && c.text == d.text && a.start < a.end <= b.start < c.start < c.end <= d.start
    requires b.end > c.start
    ensures Balanced([a, b, c, d]) && Overlaps([a, b, c, d], 0) == b.end - c.start
  {
    var ts := [a, b, c, d];
    assert ts[1..] == [b, c, d] && [b, c, d][1..] == [c, d] && [c, d][1..] == [d] && [d][1..] == [];
    var none: seq<string> := [];
    assert none + [a.text] == [a.text] && [a.text][..0] == [] && none + [c.text] == [c.text] && [c.text][..0] == [];
    assert Match([d], [c.text]) == Match([], none);
    assert Match([c, d], none) == Match([d], [c.text]);
    assert Match([b, c, d], [a.text]) == Match([c, d], none);
    assert Match(ts, none) == Match([b, c, d], [a.text]);
    assert Overlaps([d], c.end) == 0;
    assert Overlaps([c, d], b.end) == b.end - c.start;
    assert Overlaps([b, c, d], a.end) == b.end - c.start;
  }
}
