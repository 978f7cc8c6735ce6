/** Lifting the binary leaves out of a JavaScript value and putting them back
    (api/mods/reference/entry.1c0Ptbnq.js, lines 3975-4035). */
module BinaryLeaves {

  import opened Wrappers

  type Blob = seq<bv8>

  /** A JavaScript value; the fields of an object are two parallel lists in enumeration order. */
  datatype Value =
    | Undefined
    | Null
    | Bool(b: bool)
    | Num(n: real)
    | Str(s: string)
    | Bin(blob: Blob)
    | Arr(items: seq<Value>)
    | Obj(keys: seq<string>, values: seq<Value>)

  /** `t[key]` on an object. */
  function Get(keys: seq<string>, values: seq<Value>, key: string): Value {
    if keys == [] || values == [] then Undefined
    else if keys[0] == key then values[0]
    else Get(keys[1..], values[1..], key)
  }

  function Placeholder(num: nat): Value {
    Obj(["_placeholder", "num"], [Bool(true), Num(num as real)])
  }

  predicate IsPlaceholder(v: Value) {
    v.Obj? && Get(v.keys, v.values, "_placeholder") == Bool(true)
  }

  /** `fn` */
  predicate HasBinary(v: Value) {
    match v
    case Bin(_) => true
    case Arr(items) => exists i | 0 <= i < |items| :: HasBinary(items[i])
    case Obj(_, values) => exists i | 0 <= i < |values| :: HasBinary(values[i])
    case _ => false
  }

  datatype Lifted = Lifted(value: Value, buffers: seq<Blob>)
  datatype LiftedItems = LiftedItems(items: seq<Value>, buffers: seq<Blob>)

  /** `ln`: the value with placeholders, and the attachments collected so far. */
  function Lift(v: Value, buffers: seq<Blob>): Lifted
    decreases v, 1
  {
    match v
    case Bin(blob) => Lifted(Placeholder(|buffers|), buffers + [blob])
    case Arr(items) => var l := LiftAll(items, buffers); Lifted(Arr(l.items), l.buffers)
    case Obj(keys, values) => var l := LiftAll(values, buffers); Lifted(Obj(keys, l.items), l.buffers)
    case _ => Lifted(v, buffers)
  }

  function LiftAll(items: seq<Value>, buffers: seq<Blob>): (l: LiftedItems)
    ensures |l.items| == |items|
    decreases items, 0
  {
    if items == [] then LiftedItems([], buffers)
    else
      var front := LiftAll(items[..|items| - 1], buffers);
      var last := Lift(items[|items| - 1], front.buffers);
      LiftedItems(front.items + [last.value], last.buffers)
  }

  /** `rr`; `None` is the exception "illegal attachments". */
  function Restore(v: Value, buffers: seq<Blob>): Option<Value>
    decreases v, 1
  {
    if IsPlaceholder(v) then
      var num := Get(v.keys, v.values, "num");
      if num.Num? && 0.0 <= num.n < |buffers| as real
      then Some(if num.n == num.n.Floor as real then Bin(buffers[num.n.Floor]) else Undefined)
      else None
    else match v
      case Arr(items) =>
        var r := RestoreAll(items, buffers); if r.None? then None else Some(Arr(r.value))
      case Obj(keys, values) =>
        var r := RestoreAll(values, buffers); if r.None? then None else Some(Obj(keys, r.value))
      case _ => Some(v)
  }

  function RestoreAll(items: seq<Value>, buffers: seq<Blob>): (r: Option<seq<Value>>)
    ensures r.Some? ==> |r.value| == |items|
    decreases items, 0
  {
    if items == [] then Some([])
    else
      var front := RestoreAll(items[..|items| - 1], buffers);
      if front.None? then None
      else
        var last := Restore(items[|items| - 1], buffers);
        if last.None? then None else Some(front.value + [last.value])
  }

  /** `ln` with its loops; the attachment list grows as the leaves are met. */
  method LiftBinary(v: Value, buffers: seq<Blob>) returns (r: Value, out: seq<Blob>)
    ensures Lifted(r, out) == Lift(v, buffers)
    decreases v
  {
    r, out := v, buffers;
    match v
    case Bin(blob) => r, out := Placeholder(|buffers|), buffers + [blob];
    case Arr(items) =>
      var rs := [];
      for i := 0 to |items|
        invariant LiftedItems(rs, out) == LiftAll(items[..i], buffers)
      {
        var x;
        x, out := LiftBinary(items[i], out);
        rs := rs + [x];
        assert items[..i + 1][..i] == items[..i];
      }
      assert items[..|items|] == items;
      r := Arr(rs);
    case Obj(keys, values) =>
      var rs := [];
      for i := 0 to |values|
        invariant LiftedItems(rs, out) == LiftAll(values[..i], buffers)
      {
        var x;
        x, out := LiftBinary(values[i], out);
        rs := rs + [x];
        assert values[..i + 1][..i] == values[..i];
      }
      assert values[..|values|] == values;
      r := Obj(keys, rs);
    case _ =>
  }

  /** No object that the decoder would take for a placeholder. */
  predicate NoPlaceholder(v: Value) {
    && !IsPlaceholder(v)
    && match v
       case Arr(items) => forall i | 0 <= i < |items| :: NoPlaceholder(items[i])
       case Obj(_, values) => forall i | 0 <= i < |values| :: NoPlaceholder(values[i])
       case _ => true
  }

  lemma {:induction false} GetAgrees(keys: seq<string>, a: seq<Value>, b: seq<Value>, key: string)
    requires |a| == |b| && forall i | 0 <= i < |a| :: a[i] == Bool(true) <==> b[i] == Bool(true)
    ensures Get(keys, a, key) == Bool(true) <==> Get(keys, b, key) == Bool(true)
  {
    if keys != [] && a != [] && keys[0] != key {
      GetAgrees(keys[1..], a[1..], b[1..], key);
    }
  }

  lemma {:induction false} LiftAllKeepsTrue(items: seq<Value>, buffers: seq<Blob>)
    ensures var l := LiftAll(items, buffers);
            forall i | 0 <= i < |items| :: l.items[i] == Bool(true) <==> items[i] == Bool(true)
  {
    if items != [] {
      LiftAllKeepsTrue(items[..|items| - 1], buffers);
    }
  }

  /** Lifting neither makes nor hides a placeholder, apart from those it puts in for leaves. */
  lemma LiftKeepsPlaceholder(v: Value, buffers: seq<Blob>)
    requires !v.Bin?
    ensures IsPlaceholder(Lift(v, buffers).value) <==> IsPlaceholder(v)
  {
    if v.Obj? {
      LiftAllKeepsTrue(v.values, buffers);
      GetAgrees(v.keys, LiftAll(v.values, buffers).items, v.values, "_placeholder");
    }
  }

  lemma {:induction false} LiftAppends(v: Value, buffers: seq<Blob>)
    ensures buffers <= Lift(v, buffers).buffers
    decreases v, 1
  {
    match v
    case Arr(items) => LiftAllAppends(items, buffers);
    case Obj(_, values) => LiftAllAppends(values, buffers);
    case _ =>
  }

  lemma {:induction false} LiftAllAppends(items: seq<Value>, buffers: seq<Blob>)
    ensures buffers <= LiftAll(items, buffers).buffers
    decreases items, 0
  {
    if items != [] {
      LiftAllAppends(items[..|items| - 1], buffers);
      LiftAppends(items[|items| - 1], LiftAll(items[..|items| - 1], buffers).buffers);
    }
  }

  /** A placeholder number written by `Lift` reads back as the attachment at that index. */
  lemma RestorePlaceholder(num: nat, buffers: seq<Blob>)
    requires num < |buffers|
    ensures Restore(Placeholder(num), buffers) == Some(Bin(buffers[num]))
  {
    var keys, values := ["_placeholder", "num"], [Bool(true), Num(num as real)];
    assert Get(keys, values, "num") == Get(keys[1..], values[1..], "num") == Num(num as real);
    assert Get(keys, values, "_placeholder") == Bool(true);
  }

  /** MAIN RESULT. Restoring a lifted value from any list that starts with its attachments gives the
      value back exactly when the value held no placeholder-shaped object of its own. */
  lemma {:induction false} RestoreLift(v: Value, buffers: seq<Blob>, all: seq<Blob>)
    requires Lift(v, buffers).buffers <= all
    ensures Restore(Lift(v, buffers).value, all) == Some(v) <==> NoPlaceholder(v)
    decreases v, 1
  {
    match v
    case Bin(blob) =>
      RestorePlaceholder(|buffers|, all);
    case Arr(items) =>
      RestoreLiftAll(items, buffers, all);
    case Obj(keys, values) =>
      LiftKeepsPlaceholder(v, buffers);
      RestoreLiftAll(values, buffers, all);
      assert NoPlaceholder(v) <==> !IsPlaceholder(v) && AllClear(values);
    case _ =>
  }

  lemma RestoreAllSnoc(items: seq<Value>, last: Value, buffers: seq<Blob>)
    ensures var front, r := RestoreAll(items, buffers), Restore(last, buffers);
            RestoreAll(items + [last], buffers) ==
            if front.None? || r.None? then None else Some(front.value + [r.value])
  {
    assert (items + [last])[..|items|] == items;
  }

  predicate AllClear(items: seq<Value>) {
    forall i | 0 <= i < |items| :: NoPlaceholder(items[i])
  }

  lemma SnocIff(front: Option<seq<Value>>, r: Option<Value>, items: seq<Value>, last: Value)
    requires front.Some? ==> |front.value| == |items|
    ensures (if front.None? || r.None? then None else Some(front.value + [r.value])) == Some(items + [last])
       <==> front == Some(items) && r == Some(last)
  {
    if front.Some? && r.Some? {
      assert (front.value + [r.value])[..|items|] == front.value && (items + [last])[..|items|] == items;
      assert (front.value + [r.value])[|items|] == r.value && (items + [last])[|items|] == last;
    }
  }

  lemma LiftAllSnoc(items: seq<Value>, last: Value, buffers: seq<Blob>)
    ensures var front := LiftAll(items, buffers);
            var l := Lift(last, front.buffers);
            LiftAll(items + [last], buffers) == LiftedItems(front.items + [l.value], l.buffers)
  {
    assert (items + [last])[..|items|] == items;
  }

  lemma {:induction false} RestoreLiftAll(items: seq<Value>, buffers: seq<Blob>, all: seq<Blob>)
    requires LiftAll(items, buffers).buffers <= all
    ensures RestoreAll(LiftAll(items, buffers).items, all) == Some(items) <==> AllClear(items)
    decreases items, 0
  {
    if items != [] {
      var before, x := items[..|items| - 1], items[|items| - 1];
      assert items == before + [x];
      var front := LiftAll(before, buffers);
      var last := Lift(x, front.buffers);
      LiftAllSnoc(before, x, buffers);
      LiftAppends(x, front.buffers);
      RestoreLiftAll(before, buffers, all);
      RestoreLift(x, front.buffers, all);
      RestoreAllSnoc(front.items, last.value, all);
      SnocIff(RestoreAll(front.items, all), Restore(last.value, all), before, x);
      assert AllClear(items) <==> AllClear(before) && NoPlaceholder(x);
    }
  }

  /** The packet is sent as binary exactly when something was lifted; otherwise lifting is the identity. */
  lemma {:induction false} LiftCounts(v: Value, buffers: seq<Blob>)
    ensures HasBinary(v) <==> |Lift(v, buffers).buffers| > |buffers|
    ensures !HasBinary(v) ==> Lift(v, buffers) == Lifted(v, buffers)
    decreases v, 1
  {
    LiftAppends(v, buffers);
    match v
    case Arr(items) => LiftAllCounts(items, buffers);
    case Obj(_, values) => LiftAllCounts(values, buffers);
    case _ =>
  }

  lemma {:induction false} LiftAllCounts(items: seq<Value>, buffers: seq<Blob>)
    ensures (exists i | 0 <= i < |items| :: HasBinary(items[i])) <==> |LiftAll(items, buffers).buffers| > |buffers|
    ensures !(exists i | 0 <= i < |items| :: HasBinary(items[i])) ==>
              LiftAll(items, buffers) == LiftedItems(items, buffers)
    decreases items, 0
  {
    if items != [] {
      var k := |items| - 1;
      var front := LiftAll(items[..k], buffers);
      LiftAllAppends(items[..k], buffers);
      LiftAppends(items[k], front.buffers);
      LiftAllCounts(items[..k], buffers);
      LiftCounts(items[k], front.buffers);
      assert items == items[..k] + [items[k]];
      assert forall i | 0 <= i < k :: items[..k][i] == items[i];
    }
  }

  /** The binary leaves of a value, in the order in which they are met. */
  function Leaves(v: Value): seq<Blob>
    decreases v, 1
  {
    match v
    case Bin(blob) => [blob]
    case Arr(items) => AllLeaves(items)
    case Obj(_, values) => AllLeaves(values)
    case _ => []
  }

  function AllLeaves(items: seq<Value>): seq<Blob>
    decreases items, 0
  {
    if items == [] then [] else Leaves(items[0]) + AllLeaves(items[1..])
  }

  lemma {:induction false} AllLeavesSnoc(items: seq<Value>)
    requires items != []
    ensures AllLeaves(items) == AllLeaves(items[..|items| - 1]) + Leaves(items[|items| - 1])
  {
    if |items| > 1 {
      AllLeavesSnoc(items[1..]);
      assert items[1..][..|items| - 2] == items[..|items| - 1][1..];
    }
  }

  /** Lifting takes out every leaf, in order, and leaves none behind. */
  lemma {:induction false} LiftTakesLeaves(v: Value, buffers: seq<Blob>)
    ensures Lift(v, buffers).buffers == buffers + Leaves(v)
    ensures Leaves(Lift(v, buffers).value) == []
    decreases v, 1
  {
    match v
    case Arr(items) => LiftAllTakesLeaves(items, buffers);
    case Obj(_, values) => LiftAllTakesLeaves(values, buffers);
    case Bin(_) =>
      var values := [Bool(true), Num(|buffers| as real)];
      assert AllLeaves(values[1..]) == [] && AllLeaves(values) == [];
    case _ =>
  }

  lemma {:induction false} LiftAllTakesLeaves(items: seq<Value>, buffers: seq<Blob>)
    ensures LiftAll(items, buffers).buffers == buffers + AllLeaves(items)
    ensures AllLeaves(LiftAll(items, buffers).items) == []
    decreases items, 0
  {
    if items != [] {
      var k := |items| - 1;
      var front := LiftAll(items[..k], buffers);
      LiftAllTakesLeaves(items[..k], buffers);
      LiftTakesLeaves(items[k], front.buffers);
      AllLeavesSnoc(items);
      var l := LiftAll(items, buffers);
      assert l.items[..k] == front.items;
      AllLeavesSnoc(l.items);
    }
  }

  /** A placeholder on the wire, and what becomes of one whose number names no attachment. */
  lemma PlaceholderForm(blob: Blob, num: nat, buffers: seq<Blob>)
    ensures Lift(Bin(blob), []).value == Obj(["_placeholder", "num"], [Bool(true), Num(0.0)])
    ensures var wire := Obj(["_placeholder", "num"], [Bool(true), Num(num as real)]);
            Restore(wire, buffers) == if num < |buffers| then Some(Bin(buffers[num])) else None
  {
    var keys, values := ["_placeholder", "num"], [Bool(true), Num(num as real)];
    assert Get(keys, values, "_placeholder") == Bool(true);
    assert keys[0] != "num" by { assert |keys[0]| != |"num"|; }
    assert Get(keys[1..], values[1..], "num") == Num(num as real);
    assert Get(keys, values, "num") == Num(num as real);
    if num < |buffers| {
      RestorePlaceholder(num, buffers);
    }
  }
}
