/**
 Where the text of a template stands in the output. `LiteralsOf` reads a template without its guards: every literal
 that is written, with the items that enclose it. The main result: in the output every literal stands under exactly
 the guards of its enclosing items, the outermost first. What a block ranges over and when it is written are stated
 apart, with the words of the template language written out.
 */
module TemplateGuards {
  import opened Options
  import opened Template
  import opened TemplateExpand

  // ---------- The literals and what encloses them ----------

  /** A literal as it is written, and the enclosing items, the outermost first. */
  datatype Written = Written(text: string, scope: seq<Item>)

  function Both(a: Option<seq<Written>>, b: Option<seq<Written>>): Option<seq<Written>> {
    if a.None? || b.None? then None else Some(a.value + b.value)
  }

  function WrittenHere(reg: Registry, lit: string, scope: seq<Item>): Option<seq<Written>> {
    match reg.fmt(lit, Bindings(scope))
    case None => None
    case Some(text) => Some([Written(text, scope)])
  }

  function LiteralsOf(reg: Registry, t: Template, scope: seq<Item>): Option<seq<Written>>
    decreases t
  {
    match t
    case End(l) => WrittenHere(reg, l, scope)
    case Seg(l, b, rest) =>
      Both(Both(WrittenHere(reg, l, scope), BlockLiterals(reg, b, scope)), LiteralsOf(reg, rest, scope))
  }

  function BlockLiterals(reg: Registry, b: Block, scope: seq<Item>): Option<seq<Written>>
    decreases b, 2
  {
    match Subjects(reg, b.open.text, scope)
    case None => None
    case Some(items) => ItemsLiterals(reg, b, items, scope)
  }

  function ItemsLiterals(reg: Registry, b: Block, items: seq<Item>, scope: seq<Item>): Option<seq<Written>>
    decreases b, 1, |items|
  {
    if items == [] then Some([])
    else
      var last := |items| - 1;
      Both(ItemsLiterals(reg, b, items[..last], scope), ItemLiterals(reg, b, items[last], scope))
  }

  /** Nothing if the condition of the block is false for the item. */
  function ItemLiterals(reg: Registry, b: Block, item: Item, scope: seq<Item>): Option<seq<Written>>
    decreases b, 0
  {
    if b.open.cond.None? then LiteralsOf(reg, b.body, scope + [item])
    else match reg.cond(b.open.cond.value, Bindings(scope + [item]))
      case None => None
      case Some(holds) => if holds then LiteralsOf(reg, b.body, scope + [item]) else Some([])
  }

  // ---------- The guards ----------

  function AsSeq(guard: Option<string>): seq<string> {
    if guard.None? then [] else [guard.value]
  }

  /**
   The guards of the items, the outermost first. An item has the guard that the functions of extensions list under its
   name, else that of the types of extensions, else its own if it is one of the system types.
   */
  function GuardsOf(reg: Registry, scope: seq<Item>): seq<string> {
    if scope == [] then []
    else
      var item := scope[|scope| - 1];
      GuardsOf(reg, scope[..|scope| - 1])
      + if item.name in reg.extFuncs then AsSeq(reg.extFuncs[item.name])
        else if item.name in reg.extTypes then AsSeq(reg.extTypes[item.name])
        else if item in reg.sysTypes then AsSeq(reg.sysTypes[item])
        else []
  }

  /** A literal of the output and the guards that are open around it. */
  datatype Placed = Placed(text: string, guards: seq<string>)

  function PlacesIn(out: seq<Chunk>, open: seq<string>): seq<Placed> {
    if out == [] then []
    else match out[0]
      case Lit(text) => [Placed(text, open)] + PlacesIn(out[1..], open)
      case GuardOpen(g) => PlacesIn(out[1..], open + [g])
      case GuardClose(_) => PlacesIn(out[1..], if open == [] then [] else open[..|open| - 1])
  }

  /** Each literal under the guards of its items. */
  function UnderGuards(reg: Registry, ws: seq<Written>): (ps: seq<Placed>)
    ensures |ps| == |ws|
  {
    seq(|ws|, i requires 0 <= i < |ws| => Placed(ws[i].text, GuardsOf(reg, ws[i].scope)))
  }

  lemma {:induction false} PlacesCat(a: seq<Chunk>, b: seq<Chunk>, open: seq<string>)
    requires CloseGuards(a, open) == Some(open)
    ensures PlacesIn(a + b, open) == PlacesIn(a, open) + PlacesIn(b, open)
  {
    PlacesBehind(a, b, open, open);
  }

  lemma {:induction false} PlacesBehind(a: seq<Chunk>, b: seq<Chunk>, open: seq<string>, left: seq<string>)
    requires CloseGuards(a, open) == Some(left)
    ensures PlacesIn(a + b, open) == PlacesIn(a, open) + PlacesIn(b, left)
    decreases |a|
  {
    if a == [] {
      assert a + b == b;
    } else {
      assert (a + b)[1..] == a[1..] + b;
      match a[0]
      case Lit(_) => PlacesBehind(a[1..], b, open, left);
      case GuardOpen(g) => PlacesBehind(a[1..], b, open + [g], left);
      case GuardClose(g) => PlacesBehind(a[1..], b, open[..|open| - 1], left);
    }
  }

  lemma {:induction false} PlacesGuarded(g: string, out: seq<Chunk>, open: seq<string>)
    requires Nested(out)
    ensures PlacesIn([GuardOpen(g)] + out + [GuardClose(g)], open) == PlacesIn(out, open + [g])
  {
    var close := [GuardClose(g)];
    assert [GuardOpen(g)] + out + close == [GuardOpen(g)] + (out + close);
    assert ([GuardOpen(g)] + (out + close))[1..] == out + close;
    assert CloseGuards(out, open + [g]) == Some(open + [g]);
    PlacesCat(out, close, open + [g]);
    assert close[1..] == [];
    assert PlacesIn(close, open + [g]) == [];
  }

  lemma {:induction false} GuardsSnoc(reg: Registry, scope: seq<Item>, item: Item)
    ensures GuardsOf(reg, scope + [item]) == GuardsOf(reg, scope) + AsSeq(Guard(reg, item))
  {
    assert (scope + [item])[..|scope|] == scope;
  }

  lemma {:induction false} UnderCat(reg: Registry, a: seq<Written>, b: seq<Written>)
    ensures UnderGuards(reg, a + b) == UnderGuards(reg, a) + UnderGuards(reg, b)
  {
  }

  /** The output has the written literals, each under its guards. */
  ghost predicate Stands(reg: Registry, out: Option<seq<Chunk>>, ws: Option<seq<Written>>, open: seq<string>) {
    && (out.Some? <==> ws.Some?)
    && (out.Some? ==> Nested(out.value) && PlacesIn(out.value, open) == UnderGuards(reg, ws.value))
  }

  lemma {:induction false} StandsCat(reg: Registry, a: Option<seq<Chunk>>, b: Option<seq<Chunk>>,
                                     u: Option<seq<Written>>, v: Option<seq<Written>>, open: seq<string>)
    requires Stands(reg, a, u, open) && Stands(reg, b, v, open)
    ensures Stands(reg, Cat(a, b), Both(u, v), open)
  {
    if a.Some? && b.Some? {
      NestedCat(a.value, b.value);
      PlacesCat(a.value, b.value, open);
      UnderCat(reg, u.value, v.value);
    }
  }

  lemma {:induction false} LiteralStands(reg: Registry, lit: string, scope: seq<Item>)
    ensures Stands(reg, Format(reg, lit, scope), WrittenHere(reg, lit, scope), GuardsOf(reg, scope))
  {
    LitNested(reg, lit, scope);
    if Format(reg, lit, scope).Some? {
      assert Format(reg, lit, scope).value[1..] == [];
    }
  }

  /** In the output of any template every literal stands under exactly the guards of the items around it. */
  lemma {:induction false} LiteralsUnderGuards(reg: Registry, t: Template, scope: seq<Item>)
    ensures Stands(reg, DenoteTemplate(reg, t, scope), LiteralsOf(reg, t, scope), GuardsOf(reg, scope))
    decreases t
  {
    match t
    case End(l) => LiteralStands(reg, l, scope);
    case Seg(l, b, rest) =>
      LiteralStands(reg, l, scope);
      BlockUnderGuards(reg, b, scope);
      LiteralsUnderGuards(reg, rest, scope);
      StandsCat(reg, Format(reg, l, scope), DenoteBlock(reg, b, scope), WrittenHere(reg, l, scope),
                BlockLiterals(reg, b, scope), GuardsOf(reg, scope));
      StandsCat(reg, Cat(Format(reg, l, scope), DenoteBlock(reg, b, scope)), DenoteTemplate(reg, rest, scope),
                Both(WrittenHere(reg, l, scope), BlockLiterals(reg, b, scope)), LiteralsOf(reg, rest, scope),
                GuardsOf(reg, scope));
  }

  lemma {:induction false} BlockUnderGuards(reg: Registry, b: Block, scope: seq<Item>)
    ensures Stands(reg, DenoteBlock(reg, b, scope), BlockLiterals(reg, b, scope), GuardsOf(reg, scope))
    decreases b, 2
  {
    if Subjects(reg, b.open.text, scope).Some? {
      ItemsUnderGuards(reg, b, Subjects(reg, b.open.text, scope).value, scope);
    }
  }

  lemma {:induction false} ItemsUnderGuards(reg: Registry, b: Block, items: seq<Item>, scope: seq<Item>)
    ensures Stands(reg, DenoteItems(reg, b, items, scope), ItemsLiterals(reg, b, items, scope), GuardsOf(reg, scope))
    decreases b, 1, |items|
  {
    if items != [] {
      var last := |items| - 1;
      ItemsUnderGuards(reg, b, items[..last], scope);
      ItemUnderGuards(reg, b, items[last], scope);
      StandsCat(reg, DenoteItems(reg, b, items[..last], scope), DenoteItem(reg, b, items[last], scope),
                ItemsLiterals(reg, b, items[..last], scope), ItemLiterals(reg, b, items[last], scope),
                GuardsOf(reg, scope));
    }
  }

  lemma {:induction false} ItemUnderGuards(reg: Registry, b: Block, item: Item, scope: seq<Item>)
    ensures Stands(reg, DenoteItem(reg, b, item, scope), ItemLiterals(reg, b, item, scope), GuardsOf(reg, scope))
    decreases b, 0
  {
    LiteralsUnderGuards(reg, b.body, scope + [item]);
    GuardsSnoc(reg, scope, item);
    var body := DenoteTemplate(reg, b.body, scope + [item]);
    if body.Some? {
      NestedGuarded(Guard(reg, item), body.value);
      if Guard(reg, item).Some? {
        PlacesGuarded(Guard(reg, item).value, body.value, GuardsOf(reg, scope));
      } else {
        assert GuardsOf(reg, scope) + [] == GuardsOf(reg, scope);
      }
    }
  }

  /** A whole output, from no guards. */
  lemma {:induction false} OutputUnderGuards(reg: Registry, t: Template)
    ensures DenoteTemplate(reg, t, []).Some? <==> LiteralsOf(reg, t, []).Some?
    ensures DenoteTemplate(reg, t, []).Some? ==>
              PlacesIn(DenoteTemplate(reg, t, []).value, []) == UnderGuards(reg, LiteralsOf(reg, t, []).value)
  {
    LiteralsUnderGuards(reg, t, []);
  }

  // ---------- What a block ranges over ----------

  /** The place of the outermost item of one of the types. */
  ghost predicate OutermostAt(scope: seq<Item>, tys: set<Ty>, i: int) {
    0 <= i < |scope| && scope[i].ty in tys && forall j :: 0 <= j < i ==> scope[j].ty !in tys
  }

  lemma {:induction false} OutermostBehind(scope: seq<Item>, tys: set<Ty>, i: int)
    requires scope != [] && scope[0].ty !in tys
    ensures OutermostAt(scope, tys, i) <==> OutermostAt(scope[1..], tys, i - 1)
  {
    var rest := scope[1..];
    assert forall j :: 0 <= j < |rest| ==> rest[j] == scope[j + 1];
    if OutermostAt(rest, tys, i - 1) {
      forall j | 0 <= j < i ensures scope[j].ty !in tys {
        assert j > 0 ==> scope[j] == rest[j - 1];
      }
    }
  }

  lemma {:induction false} OutermostIs(scope: seq<Item>, tys: seq<Ty>, all: set<Ty>)
    requires forall ty :: ty in all <==> ty in tys
    ensures Outermost(scope, tys).Some? <==> exists i :: OutermostAt(scope, all, i)
    ensures forall i :: OutermostAt(scope, all, i) ==> Outermost(scope, tys) == Some(scope[i])
  {
    if scope != [] {
      OutermostIs(scope[1..], tys, all);
      if scope[0].ty in all {
        assert OutermostAt(scope, all, 0);
      } else {
        forall i ensures OutermostAt(scope, all, i) <==> OutermostAt(scope[1..], all, i - 1) {
          OutermostBehind(scope, all, i);
        }
        if k :| OutermostAt(scope[1..], all, k) {
          OutermostBehind(scope, all, k + 1);
        }
      }
    }
  }

  /** `text` ranges over the parts of the outermost item of these types, and fails if there is none. */
  ghost predicate RangesOverParts(reg: Registry, text: string, scope: seq<Item>, tys: set<Ty>) {
    && (Subjects(reg, text, scope).Some? <==> exists i :: OutermostAt(scope, tys, i))
    && forall i :: OutermostAt(scope, tys, i) ==> Subjects(reg, text, scope) == Some(scope[i].parts)
  }

  /** The four kinds of parts, and whose parts they are. */
  lemma {:induction false} PartsAre(reg: Registry, scope: seq<Item>)
    ensures RangesOverParts(reg, "choice", scope, {UnionTy})
    ensures RangesOverParts(reg, "option", scope, {EnumTy, BitmaskTy})
    ensures RangesOverParts(reg, "member", scope, {StructTy})
    ensures RangesOverParts(reg, "parameter", scope, {FunctionTy})
  {
    OutermostIs(scope, [UnionTy], {UnionTy});
    OutermostIs(scope, [EnumTy, BitmaskTy], {EnumTy, BitmaskTy});
    OutermostIs(scope, [StructTy], {StructTy});
    OutermostIs(scope, [FunctionTy], {FunctionTy});
  }

  /** The words for the registry's own lists, which fail nowhere; any other word fails everywhere. */
  lemma {:induction false} ListsAre(reg: Registry, text: string, scope: seq<Item>)
    requires text !in {"if", "choice", "option", "member", "parameter"}
    ensures Subjects(reg, text, scope)
         == if text in {"basetype", "bitmask", "enum", "extension", "flag", "funcpointer", "function", "handle",
                        "struct", "systype", "type", "union"}
            then Some(reg.lists(text)) else None
  {
  }

  /** An `@if` has one subject, which binds nothing. */
  lemma {:induction false} IfHasOne(reg: Registry, scope: seq<Item>)
    ensures Subjects(reg, "if", scope) == Some([Item("ifdummy", OtherTy, map[], [])])
  {
  }

  /** An `@if` is its body, unguarded, if the condition holds, and nothing if it does not. */
  lemma {:induction false} IfIs(reg: Registry, b: Block, scope: seq<Item>)
    requires b.open.text == "if" && b.open.cond.Some?
    requires "ifdummy" !in reg.extFuncs && "ifdummy" !in reg.extTypes
    requires forall item :: item in reg.sysTypes ==> item.name != "ifdummy"
    ensures var dummy := Item("ifdummy", OtherTy, map[], []);
            DenoteBlock(reg, b, scope)
            == match reg.cond(b.open.cond.value, Bindings(scope))
               case None => None
               case Some(holds) => if holds then DenoteTemplate(reg, b.body, scope + [dummy]) else Some([])
  {
    var dummy := Item("ifdummy", OtherTy, map[], []);
    IfHasOne(reg, scope);
    DummyBindsNothing(scope, dummy);
    assert [dummy][..0] == [];
    assert DenoteItems(reg, b, [], scope) == Some([]);
    CatNothing(DenoteItem(reg, b, dummy, scope));
  }

  lemma {:induction false} DummyBindsNothing(scope: seq<Item>, dummy: Item)
    requires dummy.values == map[]
    ensures Bindings(scope + [dummy]) == Bindings(scope)
  {
    if scope == [] {
      assert scope + [dummy] == [dummy] && [dummy][1..] == [];
    } else {
      assert (scope + [dummy])[1..] == scope[1..] + [dummy];
      DummyBindsNothing(scope[1..], dummy);
    }
  }
}
