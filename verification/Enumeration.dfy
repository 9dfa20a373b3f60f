/**
 Vulkan's two-call enumeration as the layers use it: `EnumerateProperties` answers it, `EnumerateAll` drives it,
 and `GetToolProperties` stacks one more entry on top of the layer below.
 */
module Enumeration {

  datatype Result = Success | Incomplete

  class Counter {
    var value: nat
    constructor (n: nat)
      ensures value == n
    {
      value := n;
    }
  }

  function Min(a: nat, b: nat): nat {
    if a < b then a else b
  }

  /** The contents `c` with `xs` written over them from position `at` on. */
  function Overwritten<T>(c: seq<T>, at: nat, xs: seq<T>): (r: seq<T>)
    requires at + |xs| <= |c|
    ensures |r| == |c|
  {
    c[..at] + xs + c[at + |xs|..]
  }

  lemma {:induction false} OverwrittenNext<T>(c: seq<T>, at: nat, xs: seq<T>, x: T)
    requires at + |xs| < |c|
    ensures Overwritten(c, at, xs)[at + |xs| := x] == Overwritten(c, at, xs + [x])
  {
  }

  lemma {:induction false} OverwrittenBehind<T>(c: seq<T>, at: nat, x: T, xs: seq<T>)
    requires at + 1 + |xs| <= |c|
    ensures Overwritten(c[at := x], at + 1, xs) == Overwritten(c, at, [x] + xs)
  {
  }

  lemma {:induction false} OverwrittenAll<T>(c: seq<T>, xs: seq<T>)
    requires |c| == |xs|
    ensures Overwritten(c, 0, xs) == xs
  {
  }

  /**
   Without a destination it only reports the number of elements; otherwise it copies as many as fit behind
   position `at`, reports how many, and says whether that was all.
   */
  method EnumerateProperties<T>(src: seq<T>, count: Counter, dst: array?<T>, at: nat) returns (result: Result)
    requires dst != null ==> at + count.value <= dst.Length
    modifies count, dst
    ensures dst == null ==> count.value == |src| && result == Success
    ensures dst != null ==>
              var n := Min(old(count.value), |src|);
              && count.value == n && (result == Success <==> n == |src|)
              && dst[..] == Overwritten(old(dst[..]), at, src[..n])
  {
    if dst == null {
      count.value := |src|;
      return Success;
    }
    if src == [] {
      // The pointer to the elements of an empty vector is null.
      count.value := 0;
      assert dst[..] == Overwritten(dst[..], at, src[..0]);
      return Success;
    }
    var copyCount := if count.value < |src| then count.value else |src|;
    for i := 0 to copyCount
      invariant count.value == old(count.value)
      invariant dst[..] == Overwritten(old(dst[..]), at, src[..i])
    {
      OverwrittenNext(old(dst[..]), at, src[..i], src[i]);
      assert src[..i + 1] == src[..i] + [src[i]];
      dst[at + i] := src[i];
    }
    count.value := copyCount;
    result := if copyCount == |src| then Success else Incomplete;
  }

  // ---------- EnumerateAll ----------

  /**
   An enumerator whose list may grow: before its k-th call from now on it gets the elements `pending[k]`. A finite
   `pending` says that it grows finitely often.
   */
  class Enumerator<T(0)> {
    var list: seq<T>
    var pending: seq<seq<T>>

    constructor (list: seq<T>, pending: seq<seq<T>>)
      ensures this.list == list && this.pending == pending
    {
      this.list, this.pending := list, pending;
    }

    method Call(count: Counter, dst: array?<T>) returns (result: Result)
      requires dst != null ==> count.value == dst.Length
      modifies this, count, dst
      ensures list == Grown(old(list), old(pending)) && pending == old(pending)[Min(1, |old(pending)|)..]
      ensures dst == null ==> count.value == |list| && result == Success
      ensures dst != null ==> var n := Min(old(count.value), |list|);
                count.value == n && (result == Success <==> n == |list|)
                && dst[..] == Overwritten(old(dst[..]), 0, list[..n])
    {
      if pending != [] {
        list := list + pending[0];
        pending := pending[1..];
      }
      result := EnumerateProperties(list, count, dst, 0);
    }
  }

  function Grown<T>(list: seq<T>, pending: seq<seq<T>>): seq<T> {
    if pending == [] then list else list + pending[0]
  }

  /** The first query finds an empty list, and the list grows before the fill. */
  predicate GrowsFromNothing<T>(list: seq<T>, pending: seq<seq<T>>) {
    list == [] && |pending| >= 2 && |pending[0]| == 0 && |pending[1]| > 0
  }

  /** The second call of a pass; the data pointer of an empty vector is null. */
  method Fill<T(0)>(driver: Enumerator<T>, count: Counter, vect: array<T>) returns (result: Result)
    requires vect.Length == |driver.list| == count.value
    modifies driver, count, vect
    ensures driver.list == Grown(old(driver.list), old(driver.pending))
    ensures driver.pending == old(driver.pending)[Min(1, |old(driver.pending)|)..]
    ensures result == Success <==> vect.Length == 0 || vect.Length == |driver.list|
    ensures result == Success && vect.Length > 0 ==> vect[..] == driver.list
  {
    ghost var blank := vect[..];
    result := driver.Call(count, if vect.Length == 0 then null else vect);
    if vect.Length > 0 && result == Success {
      assert driver.list[..|driver.list|] == driver.list;
      OverwrittenAll(blank, driver.list);
    }
  }

  /**
   EnumerateAll: query, resize, fill, and again while the fill was incomplete. The vector's data pointer is null
   while it has no elements, so a fill with it is a second query. Hence the vector ends up with the list of the last
   call exactly if the list does not grow from nothing between the first two calls; in that case it stays empty.
   */
  method EnumerateAll<T(0)>(driver: Enumerator<T>) returns (vect: array<T>, result: Result)
    modifies driver
    ensures result == Success && fresh(vect)
    ensures !GrowsFromNothing(old(driver.list), old(driver.pending)) ==> vect[..] == driver.list
    ensures GrowsFromNothing(old(driver.list), old(driver.pending)) ==> vect[..] == [] && driver.list != []
  {
    vect := new T[0];
    result := Incomplete;
    ghost var firstPass, grows := true, GrowsFromNothing(driver.list, driver.pending);
    while result == Incomplete
      invariant fresh(vect) && grows == GrowsFromNothing(old(driver.list), old(driver.pending))
      invariant firstPass ==>
                  && result == Incomplete
                  && driver.list == old(driver.list) && driver.pending == old(driver.pending)
      invariant !firstPass && result == Incomplete ==>
                  driver.list != [] && !grows
      invariant result == Success ==>
                  vect[..] == if grows then [] else driver.list
      invariant result == Success && grows ==> driver.list != []
      decreases |driver.pending|, if result == Incomplete then 1 else 0
    {
      ghost var before := driver.list;
      var count := new Counter(0);
      result := driver.Call(count, null);
      assert result == Success;
      vect := new T[count.value];
      result := Fill(driver, count, vect);
      firstPass := false;
    }
  }

  // ---------- the tool list ----------

  /** What a stack of `layers` over the driver's list reports for a fill with the given capacity. */
  function ToolCount<T>(layers: seq<T>, driver: seq<T>, capacity: nat): nat {
    if layers == [] || capacity > |layers| then Min(capacity, |layers| + |driver|) else |layers| + |driver|
  }

  /** The slots there are to write to: a layer fills its first one even with a capacity of 0. */
  function Slots<T>(layers: seq<T>, capacity: nat): (n: nat)
    ensures n >= capacity
  {
    if layers != [] && capacity == 0 then 1 else capacity
  }

  /** The decrement of an unsigned count. */
  function OneLess(n: nat): nat {
    if n == 0 then 0xFFFF_FFFF else n - 1
  }

  /** The first layer's entry and what the stack below writes behind it. */
  lemma {:induction false} FirstWritten<T>(layers: seq<T>, driver: seq<T>, before: seq<T>, after: seq<T>, at: nat,
                                           capacity: nat)
    requires layers != [] && at + Slots(layers, capacity) <= |before|
    requires var rest := layers[1..] + driver;
             after == if capacity > 1
                      then Overwritten(before[at := layers[0]], at + 1, rest[..Min(capacity - 1, |rest|)])
                      else before[at := layers[0]]
    ensures var all := layers + driver;
            after == Overwritten(before, at, all[..Min(Slots(layers, capacity), |all|)])
  {
    var rest := layers[1..] + driver;
    var below := Min(Slots(layers, capacity) - 1, |rest|);
    assert layers + driver == [layers[0]] + rest;
    TakeFront(layers[0], rest, below);
    OverwrittenBehind(before, at, layers[0], rest[..below]);
    OverwrittenNone(before[at := layers[0]], at + 1, rest[..0]);
  }

  lemma {:induction false} TakeFront<T>(x: T, rest: seq<T>, n: nat)
    requires n <= |rest|
    ensures [x] + rest[..n] == ([x] + rest)[..n + 1]
  {
  }

  lemma {:induction false} OverwrittenNone<T>(c: seq<T>, at: nat, xs: seq<T>)
    requires xs == [] && at <= |c|
    ensures Overwritten(c, at, xs) == c
  {
  }

  lemma {:induction false} ToolCountIs<T>(layers: seq<T>, driver: seq<T>, capacity: nat)
    ensures var slots, all := Slots(layers, capacity), |layers + driver|;
            ToolCount(layers, driver, capacity) == Min(slots, all)
            <==> layers == [] || slots > |layers| || slots == all
    ensures layers != [] ==>
              ToolCount(layers, driver, capacity)
              == 1 + if capacity > 1 then ToolCount(layers[1..], driver, capacity - 1) else |layers[1..]| + |driver|
  {
  }

  /**
   GetPhysicalDeviceToolPropertiesEXT through a stack of layers, top first: each writes its own entry, passes the
   remaining slots down, or a null pointer when it had only one, and adds one to the count that comes back. The
   entries that fit are always written, top down and the driver's last; with a capacity of 0 the first layer's entry
   is written all the same. The count is the number written exactly if the slots reach beyond the layers or are those
   of the whole list: otherwise the pass down turns into a query, and the caller is told of the whole list with
   Success although it has room for a part.
   */
  method GetToolProperties<T>(layers: seq<T>, driver: seq<T>, count: Counter, dst: array?<T>, at: nat)
    returns (result: Result)
    requires dst != null ==> at + Slots(layers, count.value) <= dst.Length
    modifies count, dst
    ensures dst == null ==> count.value == |layers| + |driver| && result == Success
    ensures dst != null ==>
              var all := layers + driver;
              var capacity := old(count.value);
              var slots := Slots(layers, capacity);
              var written := Min(slots, |all|);
              && dst[..] == Overwritten(old(dst[..]), at, all[..written])
              && count.value == ToolCount(layers, driver, capacity)
              && (result == Success <==> count.value == |all|)
              && (count.value == written <==> layers == [] || slots > |layers| || slots == |all|)
    decreases |layers|
  {
    ToolCountIs(layers, driver, count.value);
    if layers == [] {
      assert layers + driver == driver;
      result := EnumerateProperties(driver, count, dst, at);
    } else if dst == null {
      result := GetToolProperties(layers[1..], driver, count, null, at + 1);
      count.value := count.value + 1;
    } else {
      ghost var capacity: nat, before := count.value, dst[..];
      dst[at] := layers[0];
      assert dst[..] == before[at := layers[0]];
      var more := count.value > 1;
      count.value := OneLess(count.value);
      result := GetToolProperties(layers[1..], driver, count, if more then dst else null, at + 1);
      count.value := count.value + 1;
      FirstWritten(layers, driver, before, dst[..], at, capacity);
    }
  }
}
