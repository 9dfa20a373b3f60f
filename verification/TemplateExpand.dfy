/**
 Expansion of a template. `Denote*` is the meaning: a block stands for the concatenation of its body over the
 items it ranges over, a key that several enclosing items bind takes the value of the outermost one. `Expand`
 and `EndFile` are the generator's loops over string positions; they are proved to compute that meaning. The
 `#if` and `#endif` lines it adds are properly nested for every tree.
 */
module TemplateExpand {
  import opened Options
  import opened Template
  import opened TemplateBuild

  // ---------- The registry ----------

  datatype Ty = StructTy | UnionTy | EnumTy | BitmaskTy | FunctionTy | OtherTy

  /** One object of the registry; `parts` are its members, choices, options or parameters. */
  datatype Item = Item(name: string, ty: Ty, values: map<string, string>, parts: seq<Item>)

  /** `fmt` is str.format and `cond` the evaluated condition; None stands for an exception. */
  datatype Registry = Registry(
    lists: string -> seq<Item>,
    extFuncs: map<string, Option<string>>,     // name of a function to the guard of its extension
    extTypes: map<string, Option<string>>,
    sysTypes: map<Item, Option<string>>,
    fmt: (string, map<string, string>) -> Option<string>,
    cond: (string, map<string, string>) -> Option<bool>)

  datatype Chunk = Lit(text: string) | GuardOpen(guard: string) | GuardClose(guard: string)

  const IF_DUMMY := Item("ifdummy", OtherTy, map[], [])

  const TOP_LEVEL: set<string> := {"basetype", "bitmask", "enum", "extension", "flag", "funcpointer", "function",
                                   "handle", "struct", "systype", "type", "union"}

  function Guard(reg: Registry, item: Item): Option<string> {
    if item.name in reg.extFuncs then reg.extFuncs[item.name]
    else if item.name in reg.extTypes then reg.extTypes[item.name]
    else if item in reg.sysTypes then reg.sysTypes[item]
    else None
  }

  // ---------- Meaning; a scope lists the enclosing items, the outermost first ----------

  function Bindings(scope: seq<Item>): map<string, string> {
    if scope == [] then map[] else Bindings(scope[1..]) + scope[0].values
  }

  function Outermost(scope: seq<Item>, tys: seq<Ty>): Option<Item> {
    if scope == [] then None
    else if scope[0].ty in tys then Some(scope[0])
    else Outermost(scope[1..], tys)
  }

  function PartsOf(found: Option<Item>): Option<seq<Item>> {
    if found.None? then None else Some(found.value.parts)
  }

  /** The items a block ranges over; None if there is no enclosing item of the right type. */
  function Subjects(reg: Registry, text: string, scope: seq<Item>): Option<seq<Item>> {
    if text == "if" then Some([IF_DUMMY])
    else if text == "choice" then PartsOf(Outermost(scope, [UnionTy]))
    else if text == "option" then PartsOf(Outermost(scope, [EnumTy, BitmaskTy]))
    else if text == "member" then PartsOf(Outermost(scope, [StructTy]))
    else if text == "parameter" then PartsOf(Outermost(scope, [FunctionTy]))
    else if text in TOP_LEVEL then Some(reg.lists(text))
    else None
  }

  function Passes(reg: Registry, cond: Option<string>, env: map<string, string>): Option<bool> {
    if cond.None? then Some(true) else reg.cond(cond.value, env)
  }

  function Guarded(guard: Option<string>, out: seq<Chunk>): seq<Chunk> {
    if guard.None? then out else [GuardOpen(guard.value)] + out + [GuardClose(guard.value)]
  }

  function Format(reg: Registry, lit: string, scope: seq<Item>): Option<seq<Chunk>> {
    match reg.fmt(lit, Bindings(scope))
    case None => None
    case Some(text) => Some([Lit(text)])
  }

  function Cat(a: Option<seq<Chunk>>, b: Option<seq<Chunk>>): Option<seq<Chunk>> {
    if a.None? || b.None? then None else Some(a.value + b.value)
  }

  function DenoteTemplate(reg: Registry, t: Template, scope: seq<Item>): Option<seq<Chunk>>
    decreases t
  {
    match t
    case End(l) => Format(reg, l, scope)
    case Seg(l, b, rest) =>
      Cat(Cat(Format(reg, l, scope), DenoteBlock(reg, b, scope)), DenoteTemplate(reg, rest, scope))
  }

  function DenoteBlock(reg: Registry, b: Block, scope: seq<Item>): Option<seq<Chunk>>
    decreases b, 2
  {
    match Subjects(reg, b.open.text, scope)
    case None => None
    case Some(items) => DenoteItems(reg, b, items, scope)
  }

  function DenoteItems(reg: Registry, b: Block, items: seq<Item>, scope: seq<Item>): Option<seq<Chunk>>
    decreases b, 1, |items|
  {
    if items == [] then Some([])
    else
      var last := |items| - 1;
      Cat(DenoteItems(reg, b, items[..last], scope), DenoteItem(reg, b, items[last], scope))
  }

  function DenoteItem(reg: Registry, b: Block, item: Item, scope: seq<Item>): Option<seq<Chunk>>
    decreases b, 0
  {
    match Passes(reg, b.open.cond, Bindings(scope + [item]))
    case None => None
    case Some(false) => Some([])
    case Some(true) =>
      (match DenoteTemplate(reg, b.body, scope + [item])
       case None => None
       case Some(out) => Some(Guarded(Guard(reg, item), out)))
  }

  /** The `i`-th item of the scope binds the key, and no item outside of it does. */
  predicate BoundFirstAt(scope: seq<Item>, key: string, i: int) {
    0 <= i < |scope| && key in scope[i].values && forall j :: 0 <= j < i ==> key !in scope[j].values
  }

  /** A bound key has the value of the outermost item that binds it. */
  lemma {:induction false} BindingsOutermost(scope: seq<Item>, key: string)
    ensures key in Bindings(scope) <==> exists i :: 0 <= i < |scope| && key in scope[i].values
    ensures forall i :: BoundFirstAt(scope, key, i) ==> Bindings(scope)[key] == scope[i].values[key]
  {
    if scope != [] {
      var rest := scope[1..];
      BindingsOutermost(rest, key);
      assert forall i :: 0 <= i < |rest| ==> rest[i] == scope[i + 1];
      if key in Bindings(scope) && key !in scope[0].values {
        var i :| 0 <= i < |rest| && key in rest[i].values;
        assert key in scope[i + 1].values;
      }
      forall i | BoundFirstAt(scope, key, i)
        ensures Bindings(scope)[key] == scope[i].values[key]
      {
        if i > 0 {
          assert BoundFirstAt(rest, key, i - 1);
        }
      }
    }
  }

  // ---------- The guards nest ----------

  /** What is left of the open guards in `stack`, or None if some close does not match. */
  function CloseGuards(out: seq<Chunk>, stack: seq<string>): Option<seq<string>> {
    if out == [] then Some(stack)
    else match out[0]
      case Lit(_) => CloseGuards(out[1..], stack)
      case GuardOpen(g) => CloseGuards(out[1..], stack + [g])
      case GuardClose(g) =>
        if stack == [] || stack[|stack| - 1] != g then None else CloseGuards(out[1..], stack[..|stack| - 1])
  }

  ghost predicate Nested(out: seq<Chunk>) {
    forall stack :: CloseGuards(out, stack) == Some(stack)
  }

  lemma {:induction false} CloseGuardsCat(a: seq<Chunk>, b: seq<Chunk>, stack: seq<string>)
    requires CloseGuards(a, stack).Some?
    ensures CloseGuards(a + b, stack) == CloseGuards(b, CloseGuards(a, stack).value)
  {
    if a == [] {
      assert a + b == b;
    } else {
      assert (a + b)[1..] == a[1..] + b;
      match a[0]
      case Lit(_) => CloseGuardsCat(a[1..], b, stack);
      case GuardOpen(g) => CloseGuardsCat(a[1..], b, stack + [g]);
      case GuardClose(g) => CloseGuardsCat(a[1..], b, stack[..|stack| - 1]);
    }
  }

  lemma {:induction false} NestedCat(a: seq<Chunk>, b: seq<Chunk>)
    requires Nested(a) && Nested(b)
    ensures Nested(a + b)
  {
    forall stack ensures CloseGuards(a + b, stack) == Some(stack) {
      CloseGuardsCat(a, b, stack);
    }
  }

  lemma {:induction false} NestedGuarded(guard: Option<string>, out: seq<Chunk>)
    requires Nested(out)
    ensures Nested(Guarded(guard, out))
  {
    if guard.Some? {
      forall stack ensures CloseGuards(Guarded(guard, out), stack) == Some(stack) {
        var g, close := guard.value, [GuardClose(guard.value)];
        assert Guarded(guard, out) == [GuardOpen(g)] + (out + close);
        assert ([GuardOpen(g)] + (out + close))[1..] == out + close;
        CloseGuardsCat(out, close, stack + [g]);
        assert (stack + [g])[..|stack|] == stack;
        assert close[1..] == [];
      }
    }
  }

  /** Whatever the tree, the guards in its output are properly nested. */
  lemma {:induction false} GuardsNest(reg: Registry, t: Template, scope: seq<Item>)
    ensures DenoteTemplate(reg, t, scope).Some? ==> Nested(DenoteTemplate(reg, t, scope).value)
    decreases t
  {
    forall l ensures Format(reg, l, scope).Some? ==> Nested(Format(reg, l, scope).value) {
      LitNested(reg, l, scope);
    }
    if t.Seg? && DenoteTemplate(reg, t, scope).Some? {
      GuardsNest(reg, t.rest, scope);
      BlockGuardsNest(reg, t.block, scope);
      var lit, block := Format(reg, t.lit, scope).value, DenoteBlock(reg, t.block, scope).value;
      NestedCat(lit, block);
      NestedCat(lit + block, DenoteTemplate(reg, t.rest, scope).value);
    }
  }

  lemma {:induction false} LitNested(reg: Registry, l: string, scope: seq<Item>)
    ensures Format(reg, l, scope).Some? ==> Nested(Format(reg, l, scope).value)
  {
    if Format(reg, l, scope).Some? {
      var out := Format(reg, l, scope).value;
      assert out[1..] == [];
    }
  }

  lemma {:induction false} BlockGuardsNest(reg: Registry, b: Block, scope: seq<Item>)
    ensures DenoteBlock(reg, b, scope).Some? ==> Nested(DenoteBlock(reg, b, scope).value)
    decreases b, 2
  {
    if Subjects(reg, b.open.text, scope).Some? {
      ItemsGuardsNest(reg, b, Subjects(reg, b.open.text, scope).value, scope);
    }
  }

  lemma {:induction false} ItemsGuardsNest(reg: Registry, b: Block, items: seq<Item>, scope: seq<Item>)
    ensures DenoteItems(reg, b, items, scope).Some? ==> Nested(DenoteItems(reg, b, items, scope).value)
    decreases b, 1, |items|
  {
    if items != [] && DenoteItems(reg, b, items, scope).Some? {
      var last := |items| - 1;
      ItemsGuardsNest(reg, b, items[..last], scope);
      GuardsNest(reg, b.body, scope + [items[last]]);
      var out := DenoteItem(reg, b, items[last], scope).value;
      if Passes(reg, b.open.cond, Bindings(scope + [items[last]])) == Some(true) {
        NestedGuarded(Guard(reg, items[last]), DenoteTemplate(reg, b.body, scope + [items[last]]).value);
      }
      NestedCat(DenoteItems(reg, b, items[..last], scope).value, out);
    }
  }

  // ---------- The loops of the generator; `parents` lists the enclosing items, the innermost first ----------

  function Reverse(parents: seq<Item>): (scope: seq<Item>)
    ensures |scope| == |parents|
  {
    if parents == [] then [] else Reverse(parents[1..]) + [parents[0]]
  }

  lemma {:induction false} BindingsSnoc(scope: seq<Item>, item: Item)
    ensures Bindings([item] + scope) == Bindings(scope) + item.values
  {
    assert ([item] + scope)[1..] == scope;
  }

  /** The values of an item, updated by those of its parents from the innermost to the outermost. */
  method MergeValues(item: Item, parents: seq<Item>) returns (values: map<string, string>)
    ensures values == Bindings(Reverse(parents) + [item])
  {
    values := item.values;
    assert Bindings([item]) == item.values by {
      assert [item][1..] == [];
    }
    assert Reverse(parents[..0]) + [item] == [item];
    for i := 0 to |parents|
      invariant values == Bindings(Reverse(parents[..i]) + [item])
    {
      ReverseSnoc(parents[..i], parents[i]);
      assert parents[..i + 1] == parents[..i] + [parents[i]];
      BindingsSnoc(Reverse(parents[..i]) + [item], parents[i]);
      assert Reverse(parents[..i + 1]) + [item] == [parents[i]] + (Reverse(parents[..i]) + [item]);
      values := values + parents[i].values;
    }
    assert parents[..|parents|] == parents;
  }

  lemma {:induction false} ReverseSnoc(parents: seq<Item>, p: Item)
    ensures Reverse(parents + [p]) == [p] + Reverse(parents)
  {
    if parents == [] {
      assert parents + [p] == [p];
      assert [p][1..] == [];
    } else {
      ReverseSnoc(parents[1..], p);
      assert (parents + [p])[1..] == parents[1..] + [p];
    }
  }

  lemma {:induction false} OutermostCons(scope: seq<Item>, p: Item, tys: seq<Ty>)
    ensures Outermost([p] + scope, tys) == if p.ty in tys then Some(p) else Outermost(scope, tys)
  {
    assert ([p] + scope)[1..] == scope;
  }

  /** The last match in the list of parents, which is the outermost one. None stands for the failed assertion. */
  method FindByType(types: seq<Ty>, objects: seq<Item>) returns (value: Option<Item>)
    ensures value == Outermost(Reverse(objects), types)
  {
    value := None;
    for i := 0 to |objects|
      invariant value == Outermost(Reverse(objects[..i]), types)
    {
      ReverseSnoc(objects[..i], objects[i]);
      assert objects[..i + 1] == objects[..i] + [objects[i]];
      OutermostCons(Reverse(objects[..i]), objects[i], types);
      for k := 0 to |types|
        invariant value == Outermost(Reverse(objects[..i]), types) && objects[i].ty !in types[..k]
      {
        if objects[i].ty == types[k] {
          value := Some(objects[i]);
          break;
        }
        assert types[..k + 1] == types[..k] + [types[k]];
      }
      assert types[..|types|] == types;
    }
    assert objects[..|objects|] == objects;
  }

  method GetSubjects(reg: Registry, text: string, parents: seq<Item>) returns (subjects: Option<seq<Item>>)
    ensures subjects == Subjects(reg, text, Reverse(parents))
  {
    if text == "if" {
      return Some([IF_DUMMY]);
    }
    var found: Option<Item>;
    if text == "choice" {
      found := FindByType([UnionTy], parents);
    } else if text == "option" {
      found := FindByType([EnumTy, BitmaskTy], parents);
    } else if text == "member" {
      found := FindByType([StructTy], parents);
    } else if text == "parameter" {
      found := FindByType([FunctionTy], parents);
    } else if text in TOP_LEVEL {
      return Some(reg.lists(text));
    } else {
      return None;
    }
    return PartsOf(found);
  }

  /** expand: `loop` is the control of the block `b`. */
  method Expand(reg: Registry, s: string, loop: Control, parents: seq<Item>, ghost b: Block)
    returns (out: Option<seq<Chunk>>)
    requires WfBlock(b) && loop == ControlOf(b) && LitsOf(s, b.open.end, b.body, b.close.start)
    ensures out == DenoteBlock(reg, b, Reverse(parents))
    decreases b, 1
  {
    ghost var scope := Reverse(parents);
    var subjects := GetSubjects(reg, loop.text, parents);
    if subjects.None? {
      return None;
    }
    var items, text := subjects.value, [];
    for i := 0 to |items|
      invariant DenoteItems(reg, b, items[..i], scope) == Some(text)
    {
      var one := ExpandItem(reg, s, loop, items[i], parents, b);
      assert items[..i + 1][..i] == items[..i];
      ghost var upto := DenoteItems(reg, b, items[..i + 1], scope);
      assert upto == Cat(Some(text), one);
      if one.None? {
        ItemsFail(reg, b, items, i + 1, scope);
        return None;
      }
      text := text + one.value;
    }
    assert items[..|items|] == items;
    return Some(text);
  }

  lemma {:induction false} ItemsFail(reg: Registry, b: Block, items: seq<Item>, n: nat, scope: seq<Item>)
    requires n <= |items| && DenoteItems(reg, b, items[..n], scope).None?
    ensures DenoteItems(reg, b, items, scope).None?
    decreases |items| - n
  {
    if n < |items| {
      assert items[..n + 1][..n] == items[..n];
      ItemsFail(reg, b, items, n + 1, scope);
    } else {
      assert items[..n] == items;
    }
  }

  /** The part of expand that handles one subject. */
  method ExpandItem(reg: Registry, s: string, loop: Control, item: Item, parents: seq<Item>, ghost b: Block)
    returns (out: Option<seq<Chunk>>)
    requires WfBlock(b) && loop == ControlOf(b) && LitsOf(s, b.open.end, b.body, b.close.start)
    ensures out == DenoteItem(reg, b, item, Reverse(parents))
    decreases b, 0
  {
    var values := MergeValues(item, parents);
    if loop.cond.Some? {
      var cond := reg.cond(loop.cond.value, values);
      if cond.None? {
        return None;
      }
      if !cond.value {
        return Some([]);
      }
    }
    assert ([item] + parents)[1..] == parents;
    var body := ExpandBody(reg, s, loop.children, loop.startPos.1, loop.endPos.0, values, [item] + parents, b.body);
    if body.None? {
      return None;
    }
    var guard := Guard(reg, item);
    var text := if guard.Some? then [GuardOpen(guard.value)] else [];
    assert guard.None? ==> text + body.value == body.value;
    text := text + body.value;
    if guard.Some? {
      text := text + [GuardClose(guard.value)];
    }
    return Some(text);
  }

  /** The template `u` from `p` to `stop`, with the controls `cs`. */
  ghost predicate Stands(s: string, p: nat, stop: nat, u: Template, cs: seq<Control>) {
    Wf(u) && cs == ControlsOf(u) && LitsOf(s, p, u, stop)
  }

  /** The first literal, the first block and what is behind it. */
  lemma {:induction false} StandsStep(s: string, p: nat, stop: nat, u: Template, cs: seq<Control>)
    requires Stands(s, p, stop, u, cs) && cs != []
    ensures u.Seg? && WfBlock(u.block) && cs[0] == ControlOf(u.block) && u.lit == Slice(s, p, cs[0].startPos.0)
    ensures LitsOf(s, u.block.open.end, u.block.body, u.block.close.start)
    ensures Stands(s, cs[0].endPos.1, stop, u.rest, cs[1..])
  {
  }

  /** The literals and children of a block between two positions. */
  method ExpandBody(reg: Registry, s: string, children: seq<Control>, start: nat, stop: nat,
                    values: map<string, string>, parents: seq<Item>, ghost t: Template)
    returns (out: Option<seq<Chunk>>)
    requires Stands(s, start, stop, t, children) && values == Bindings(Reverse(parents))
    ensures out == DenoteTemplate(reg, t, Reverse(parents))
    decreases t, 2
  {
    ghost var scope := Reverse(parents);
    var text: seq<Chunk>, lastIndex: nat := [], start;
    ghost var u := t;
    CatNothing(DenoteTemplate(reg, t, scope));
    for k := 0 to |children|
      invariant Stands(s, lastIndex, stop, u, children[k..]) && (u == t || u < t)
      invariant DenoteTemplate(reg, t, scope) == Cat(Some(text), DenoteTemplate(reg, u, scope))
    {
      assert children[k..][1..] == children[k + 1..];
      StandsStep(s, lastIndex, stop, u, children[k..]);
      var one := ExpandSegment(reg, s, children[k], lastIndex, values, parents, u);
      if one.None? {
        return None;
      }
      CatAssoc(text, one.value, DenoteTemplate(reg, u.rest, scope));
      text := text + one.value;
      lastIndex := children[k].endPos.1;
      u := u.rest;
    }
    assert u.End?;
    var lit := reg.fmt(Slice(s, lastIndex, stop), values);
    if lit.None? {
      return None;
    }
    return Some(text + [Lit(lit.value)]);
  }

  /** A literal and the child behind it. */
  method ExpandSegment(reg: Registry, s: string, child: Control, lastIndex: nat, values: map<string, string>,
                       parents: seq<Item>, ghost u: Template)
    returns (out: Option<seq<Chunk>>)
    requires u.Seg? && WfBlock(u.block) && child == ControlOf(u.block) && u.lit == Slice(s, lastIndex, child.startPos.0)
    requires LitsOf(s, u.block.open.end, u.block.body, u.block.close.start)
    requires values == Bindings(Reverse(parents))
    ensures out == Cat(Format(reg, u.lit, Reverse(parents)), DenoteBlock(reg, u.block, Reverse(parents)))
    decreases u, 1
  {
    var lit := reg.fmt(Slice(s, lastIndex, child.startPos.0), values);
    if lit.None? {
      return None;
    }
    var inner := Expand(reg, s, child, parents, u.block);
    if inner.None? {
      return None;
    }
    return Some([Lit(lit.value)] + inner.value);
  }

  lemma {:induction false} CatNothing(d: Option<seq<Chunk>>)
    ensures d == Cat(Some([]), d)
  {
    if d.Some? {
      assert [] + d.value == d.value;
    }
  }

  lemma {:induction false} CatAssoc(a: seq<Chunk>, b: seq<Chunk>, d: Option<seq<Chunk>>)
    ensures Cat(Some(a), Cat(Some(b), d)) == Cat(Some(a + b), d)
  {
    if d.Some? {
      assert a + (b + d.value) == a + b + d.value;
    }
  }

  // ---------- The whole file ----------

  /** The template without the last character of its last literal. */
  function DropLast(t: Template): Template {
    match t
    case End(l) => End(if l == "" then "" else l[..|l| - 1])
    case Seg(l, b, rest) => Seg(l, b, DropLast(rest))
  }

  /** format[lastIndex:-1] is format[lastIndex:] without its last character, and empty if that is empty. */
  lemma {:induction false} SliceDropsLast(s: string, p: nat)
    ensures var l := Slice(s, p, |s|);
            Slice(s, p, if |s| > 0 then |s| - 1 else 0) == if l == "" then "" else l[..|l| - 1]
  {
  }

  lemma {:induction false} DropLastStands(s: string, t: Template, p: nat)
    requires Wf(t) && LitsOf(s, p, t, |s|)
    ensures Stands(s, p, if |s| > 0 then |s| - 1 else 0, DropLast(t), ControlsOf(t))
    decreases t
  {
    match t
    case End(_) => SliceDropsLast(s, p);
    case Seg(_, b, rest) => DropLastStands(s, rest, b.close.end);
  }

  lemma {:induction false} BuiltTemplate(s: string, fors: seq<Tok>, ifs: seq<Tok>, ends: seq<Tok>, ts: seq<Tok>)
    returns (t: Template)
    requires Increasing(ts) && Balanced(ts)
    requires fors == OfKind(ts, ForTok) && ifs == OfKind(ts, IfTok) && ends == OfKind(ts, EndTok)
    ensures Descend(s, ts, 0).Some? && t == Descend(s, ts, 0).value.0 && Wf(t) && LitsOf(s, 0, t, |s|)
    ensures AllOf(fors, ForTok) && AllOf(ifs, IfTok) && AllOf(ends, EndTok)
    ensures Scan(Merge(fors, ifs, ends), [], []) == Built(AtDepth(ControlsOf(t), 0))
  {
    BalancedIsTemplate(s, ts);
    t := Descend(s, ts, 0).value.0;
    OfKindIn(ts, ForTok);
    OfKindIn(ts, IfTok);
    OfKindIn(ts, EndTok);
    MergeOfKinds(ts);
    BuildBalanced(t);
  }

  /**
   endFile on a balanced list of tags in text order, overlapping or not: the output is the meaning of the template that
   a recursive-descent parser reads from the same string and tags, without the last character of its last literal.
   */
  method EndFile(reg: Registry, s: string, fors: seq<Tok>, ifs: seq<Tok>, ends: seq<Tok>, ghost ts: seq<Tok>)
    returns (out: Option<seq<Chunk>>)
    requires Increasing(ts) && Balanced(ts)
    requires fors == OfKind(ts, ForTok) && ifs == OfKind(ts, IfTok) && ends == OfKind(ts, EndTok)
    ensures Descend(s, ts, 0).Some?
    ensures out == DenoteTemplate(reg, DropLast(Descend(s, ts, 0).value.0), [])
  {
    ghost var t := BuiltTemplate(s, fors, ifs, ends, ts);
    var built := BuildTree(fors, ifs, ends);
    assert built == Built(AtDepth(ControlsOf(t), 0));
    var loops := built.loops;
    var controls := seq(|loops|, i requires 0 <= i < |loops| => loops[i].1);
    forall i | 0 <= i < |controls|
      ensures controls[i] == ControlsOf(t)[i]
    {
      AtDepthAt(ControlsOf(t), 0, i);
    }
    assert controls == ControlsOf(t);
    DropLastStands(s, t, 0);
    assert Bindings(Reverse([])) == map[];
    out := ExpandBody(reg, s, controls, 0, if |s| > 0 then |s| - 1 else 0, map[], [], DropLast(t));
  }
}
