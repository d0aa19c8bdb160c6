/** The depth-bounded serialiser over object graphs that may share and may be cyclic. */
module Serializer {
  import opened Common

  /** A JavaScript value; objects live in the heap. */
  datatype Val =
    | Nullish
    | Prim(value: nat)                                   // string, number or boolean
    | ErrorVal(name: string, message: string, stack: string)
    | Textual(text: string)                              // function, symbol or bigint, as it is printed
    | Ref(addr: nat)

  /** Reading a property can throw. */
  datatype Access = Got(v: Val) | Threw(message: string)

  datatype Node = Arr(items: seq<Val>) | Obj(fields: seq<(string, Access)>)

  type Heap = nat -> Node

  datatype Tree =
    | TNullish
    | TPrim(value: nat)
    | TError(name: string, message: string, stack: string)
    | TText(text: string)
    | TArr(items: seq<Tree>)
    | TObj(fields: seq<(string, Tree)>)

  const WIDTH := 20

  /** The serialised value and the objects seen so far. */
  function Serialize(h: Heap, v: Val, depth: nat, seen: set<nat>): (Tree, set<nat>)
    decreases depth, 1, 0
  {
    if depth == 0 then (TText("[depth limit]"), seen)
    else match v
      case Nullish => (TNullish, seen)
      case Prim(p) => (TPrim(p), seen)
      case ErrorVal(name, message, stack) => (TError(name, message, stack), seen)
      case Textual(text) => (TText(text), seen)
      case Ref(a) =>
        if a in seen then (TText("[circular]"), seen)
        else match h(a)
          case Arr(items) =>
            var (ts, s) := SerializeItems(h, Take(items, WIDTH), depth - 1, seen + {a});
            (TArr(ts), s)
          case Obj(fields) =>
            var (ts, s) := SerializeFields(h, Take(fields, WIDTH), depth - 1, seen + {a});
            (TObj(ts), s)
  }

  function SerializeItems(h: Heap, items: seq<Val>, depth: nat, seen: set<nat>): (r: (seq<Tree>, set<nat>))
    ensures |r.0| == |items|
    decreases depth, 2, |items|
  {
    if items == [] then ([], seen)
    else
      var n := |items| - 1;
      var (ts, s) := SerializeItems(h, items[..n], depth, seen);
      var (t, s') := Serialize(h, items[n], depth, s);
      (ts + [t], s')
  }

  function SerializeAccess(h: Heap, a: Access, depth: nat, seen: set<nat>): (Tree, set<nat>)
    decreases depth, 1, 1
  {
    match a
    case Got(v) => Serialize(h, v, depth, seen)
    case Threw(message) => (TText("[error serializing: " + message + "]"), seen)
  }

  function SerializeFields(h: Heap, fields: seq<(string, Access)>, depth: nat, seen: set<nat>)
    : (r: (seq<(string, Tree)>, set<nat>))
    ensures |r.0| == |fields|
    decreases depth, 2, |fields|
  {
    if fields == [] then ([], seen)
    else
      var n := |fields| - 1;
      var (ts, s) := SerializeFields(h, fields[..n], depth, seen);
      var (t, s') := SerializeAccess(h, fields[n].1, depth, s);
      (ts + [(fields[n].0, t)], s')
  }

  /* ---------- the recursive procedure with its shared, mutated set ---------- */

  class WeakSet {
    var members: set<nat>

    constructor ()
      ensures members == {}
    {
      members := {};
    }
  }

  method SafeSerialize(h: Heap, v: Val, depth: nat, seen: WeakSet) returns (t: Tree)
    modifies seen
    ensures (t, seen.members) == Serialize(h, v, depth, old(seen.members))
    decreases depth, 1
  {
    if depth == 0 {
      return TText("[depth limit]");
    }
    match v
    case Nullish => t := TNullish;
    case Prim(p) => t := TPrim(p);
    case ErrorVal(name, message, stack) => t := TError(name, message, stack);
    case Textual(text) => t := TText(text);
    case Ref(a) =>
      if a in seen.members {
        return TText("[circular]");
      }
      seen.members := seen.members + {a};
      match h(a)
      case Arr(items) =>
        var ts := MapItems(h, Take(items, WIDTH), depth - 1, seen);
        t := TArr(ts);
      case Obj(fields) =>
        var ts := CopyFields(h, Take(fields, WIDTH), depth - 1, seen);
        t := TObj(ts);
  }

  method MapItems(h: Heap, items: seq<Val>, depth: nat, seen: WeakSet) returns (ts: seq<Tree>)
    modifies seen
    ensures (ts, seen.members) == SerializeItems(h, items, depth, old(seen.members))
    decreases depth, 2
  {
    ts := [];
    assert items[..0] == [];
    for i := 0 to |items|
      invariant (ts, seen.members) == SerializeItems(h, items[..i], depth, old(seen.members))
    {
      assert items[..i + 1][..i] == items[..i];
      var t := SafeSerialize(h, items[i], depth, seen);
      ts := ts + [t];
    }
    assert items[..|items|] == items;
  }

  method CopyFields(h: Heap, fields: seq<(string, Access)>, depth: nat, seen: WeakSet)
    returns (output: seq<(string, Tree)>)
    modifies seen
    ensures (output, seen.members) == SerializeFields(h, fields, depth, old(seen.members))
    decreases depth, 2
  {
    output := [];
    assert fields[..0] == [];
    for i := 0 to |fields|
      invariant (output, seen.members) == SerializeFields(h, fields[..i], depth, old(seen.members))
    {
      assert fields[..i + 1][..i] == fields[..i];
      var t: Tree;
      match fields[i].1 {
        case Got(v) => t := SafeSerialize(h, v, depth, seen);
        case Threw(message) => t := TText("[error serializing: " + message + "]");
      }
      output := output + [(fields[i].0, t)];
    }
    assert fields[..|fields|] == fields;
  }

  /* ---------- the output is bounded by the depth alone ---------- */

  function Size(t: Tree): nat
    decreases t, 0
  {
    match t
    case TError(_, _, _) => 4
    case TArr(items) => 1 + SizeItems(items)
    case TObj(fields) => 1 + SizeFields(fields)
    case _ => 1
  }

  function SizeItems(ts: seq<Tree>): nat
    decreases ts, 1
  {
    if ts == [] then 0 else SizeItems(ts[..|ts| - 1]) + Size(ts[|ts| - 1])
  }

  function SizeFields(ts: seq<(string, Tree)>): nat
    decreases ts, 1
  {
    if ts == [] then 0
    else
      assert ts[|ts| - 1].1 < ts[|ts| - 1];
      SizeFields(ts[..|ts| - 1]) + Size(ts[|ts| - 1].1)
  }

  function MaxSize(depth: nat): nat {
    if depth == 0 then 1 else 1 + 20 * MaxSize(depth - 1)
  }

  /** Whatever the graph, the result has at most MaxSize(depth) nodes. */
  lemma {:induction false} OutputIsBounded(h: Heap, v: Val, depth: nat, seen: set<nat>)
    ensures Size(Serialize(h, v, depth, seen).0) <= MaxSize(depth)
    decreases depth, 1, 0
  {
    if depth > 0 {
      assert MaxSize(depth - 1) >= 1;
      if v.Ref? && v.addr !in seen {
        match h(v.addr)
        case Arr(items) =>
          ItemsAreBounded(h, Take(items, WIDTH), depth - 1, seen + {v.addr});
          ProductMonotone(|Take(items, WIDTH)|, WIDTH, MaxSize(depth - 1));
        case Obj(fields) =>
          FieldsAreBounded(h, Take(fields, WIDTH), depth - 1, seen + {v.addr});
          ProductMonotone(|Take(fields, WIDTH)|, WIDTH, MaxSize(depth - 1));
      }
    }
  }

  lemma ProductMonotone(a: nat, b: nat, m: nat)
    requires a <= b
    ensures a * m <= b * m
  {
  }

  lemma OneMore(n: nat, m: nat)
    ensures (n + 1) * m == n * m + m
  {
  }

  lemma {:induction false} ItemsAreBounded(h: Heap, items: seq<Val>, depth: nat, seen: set<nat>)
    ensures SizeItems(SerializeItems(h, items, depth, seen).0) <= |items| * MaxSize(depth)
    decreases depth, 2, |items|
  {
    if items != [] {
      var n := |items| - 1;
      var (ts, s) := SerializeItems(h, items[..n], depth, seen);
      var (t, s') := Serialize(h, items[n], depth, s);
      ItemsAreBounded(h, items[..n], depth, seen);
      OutputIsBounded(h, items[n], depth, s);
      OneMore(n, MaxSize(depth));
      assert (ts + [t])[..|ts + [t]| - 1] == ts;
    }
  }

  lemma {:induction false} FieldsAreBounded(h: Heap, fields: seq<(string, Access)>, depth: nat, seen: set<nat>)
    ensures SizeFields(SerializeFields(h, fields, depth, seen).0) <= |fields| * MaxSize(depth)
    decreases depth, 2, |fields|
  {
    if fields != [] {
      var n := |fields| - 1;
      var (ts, s) := SerializeFields(h, fields[..n], depth, seen);
      var (t, s') := SerializeAccess(h, fields[n].1, depth, s);
      FieldsAreBounded(h, fields[..n], depth, seen);
      OneMore(n, MaxSize(depth));
      if fields[n].1.Got? {
        OutputIsBounded(h, fields[n].1.v, depth, s);
      } else {
        assert MaxSize(depth) >= 1;
      }
      var all := ts + [(fields[n].0, t)];
      assert all[..|all| - 1] == ts;
    }
  }

  /* ---------- what is left out ---------- */

  /** A container without what comes after its first 20 entries. */
  function FirstTwenty(n: Node): Node {
    match n
    case Arr(items) => if |items| > 20 then Arr(items[..20]) else n
    case Obj(fields) => if |fields| > 20 then Obj(fields[..20]) else n
  }

  function Trimmed(h: Heap): Heap {
    (a: nat) => FirstTwenty(h(a))
  }

  /** What comes after the first 20 entries of a container makes no difference, and the first 20 are what is kept. */
  lemma {:induction false} OnlyFirstTwentyCount(h: Heap, v: Val, depth: nat, seen: set<nat>)
    ensures Serialize(h, v, depth, seen) == Serialize(Trimmed(h), v, depth, seen)
    decreases depth, 1, 0
  {
    if depth > 0 && v.Ref? && v.addr !in seen {
      match h(v.addr)
      case Arr(items) => ItemsOfTrimmed(h, Take(items, WIDTH), depth - 1, seen + {v.addr});
      case Obj(fields) => FieldsOfTrimmed(h, Take(fields, WIDTH), depth - 1, seen + {v.addr});
    }
  }

  lemma {:induction false} ItemsOfTrimmed(h: Heap, items: seq<Val>, depth: nat, seen: set<nat>)
    ensures SerializeItems(h, items, depth, seen) == SerializeItems(Trimmed(h), items, depth, seen)
    decreases depth, 2, |items|
  {
    if items != [] {
      var n := |items| - 1;
      ItemsOfTrimmed(h, items[..n], depth, seen);
      OnlyFirstTwentyCount(h, items[n], depth, SerializeItems(h, items[..n], depth, seen).1);
    }
  }

  lemma {:induction false} FieldsOfTrimmed(h: Heap, fields: seq<(string, Access)>, depth: nat, seen: set<nat>)
    ensures SerializeFields(h, fields, depth, seen) == SerializeFields(Trimmed(h), fields, depth, seen)
    decreases depth, 2, |fields|
  {
    if fields != [] {
      var n := |fields| - 1;
      FieldsOfTrimmed(h, fields[..n], depth, seen);
      if fields[n].1.Got? {
        OnlyFirstTwentyCount(h, fields[n].1.v, depth, SerializeFields(h, fields[..n], depth, seen).1);
      }
    }
  }

  /** The texts that stand in for values below the depth, for throwing properties, and for what is only printed. */
  lemma StandIns(h: Heap, v: Val, message: string, depth: nat, seen: set<nat>)
    ensures Serialize(h, v, 0, seen) == (TText("[depth limit]"), seen)
    ensures depth > 0 ==> Serialize(h, Textual(message), depth, seen) == (TText(message), seen)
    ensures SerializeAccess(h, Threw(message), depth, seen) == (TText("[error serializing: " + message + "]"), seen)
  {
  }

  /* ---------- every object is expanded at most once ---------- */

  /** Containers in the output: one per expanded object. */
  function Containers(t: Tree): nat
    decreases t, 0
  {
    match t
    case TArr(items) => 1 + ContainersIn(items)
    case TObj(fields) => 1 + ContainersInFields(fields)
    case _ => 0
  }

  function ContainersIn(ts: seq<Tree>): nat
    decreases ts, 1
  {
    if ts == [] then 0 else ContainersIn(ts[..|ts| - 1]) + Containers(ts[|ts| - 1])
  }

  function ContainersInFields(ts: seq<(string, Tree)>): nat
    decreases ts, 1
  {
    if ts == [] then 0
    else
      assert ts[|ts| - 1].1 < ts[|ts| - 1];
      ContainersInFields(ts[..|ts| - 1]) + Containers(ts[|ts| - 1].1)
  }

  /** The output has exactly one container per object newly marked as seen, so none is expanded twice. */
  lemma {:induction false} ExpandsOnce(h: Heap, v: Val, depth: nat, seen: set<nat>)
    ensures var (t, s) := Serialize(h, v, depth, seen); seen <= s && Containers(t) + |seen| == |s|
    decreases depth, 1, 0
  {
    if depth > 0 && v.Ref? && v.addr !in seen {
      match h(v.addr)
      case Arr(items) => ItemsExpandOnce(h, Take(items, WIDTH), depth - 1, seen + {v.addr});
      case Obj(fields) => FieldsExpandOnce(h, Take(fields, WIDTH), depth - 1, seen + {v.addr});
    }
  }

  lemma {:induction false} ItemsExpandOnce(h: Heap, items: seq<Val>, depth: nat, seen: set<nat>)
    ensures var (ts, s) := SerializeItems(h, items, depth, seen); seen <= s && ContainersIn(ts) + |seen| == |s|
    decreases depth, 2, |items|
  {
    if items != [] {
      var n := |items| - 1;
      var (ts, s) := SerializeItems(h, items[..n], depth, seen);
      var (t, s') := Serialize(h, items[n], depth, s);
      ItemsExpandOnce(h, items[..n], depth, seen);
      ExpandsOnce(h, items[n], depth, s);
      assert (ts + [t])[..|ts + [t]| - 1] == ts;
    }
  }

  lemma {:induction false} FieldsExpandOnce(h: Heap, fields: seq<(string, Access)>, depth: nat, seen: set<nat>)
    ensures var (ts, s) := SerializeFields(h, fields, depth, seen); seen <= s && ContainersInFields(ts) + |seen| == |s|
    decreases depth, 2, |fields|
  {
    if fields != [] {
      var n := |fields| - 1;
      var (ts, s) := SerializeFields(h, fields[..n], depth, seen);
      var (t, s') := SerializeAccess(h, fields[n].1, depth, s);
      FieldsExpandOnce(h, fields[..n], depth, seen);
      if fields[n].1.Got? {
        ExpandsOnce(h, fields[n].1.v, depth, s);
      }
      var all := ts + [(fields[n].0, t)];
      assert all[..|all| - 1] == ts;
    }
  }

  /** A second reference to an object is rendered as circular even where the graph has no cycle. */
  lemma SharedRendersAsCircular(h: Heap, a: nat, b: nat, depth: nat)
    requires a != b && h(a) == Arr([Ref(b), Ref(b)]) && h(b) == Arr([]) && depth >= 2
    ensures Serialize(h, Ref(a), depth, {}).0 == TArr([TArr([]), TText("[circular]")])
  {
    var items := [Ref(b), Ref(b)];
    assert items[..1] == [Ref(b)] && [Ref(b)][..0] == [];
    assert {a} + {b} == {a, b} && {} + {a} == {a};
    assert SerializeItems(h, [], depth - 2, {a, b}) == ([], {a, b});
    assert Serialize(h, Ref(b), depth - 1, {a}) == (TArr([]), {a, b});
    ItemsSnoc(h, [], Ref(b), depth - 1, {a});
    ItemsSnoc(h, [Ref(b)], Ref(b), depth - 1, {a});
    assert [] + [Ref(b)] == [Ref(b)] && [Ref(b)] + [Ref(b)] == items;
    assert [] + [TArr([])] == [TArr([])];
    assert [TArr([])] + [TText("[circular]")] == [TArr([]), TText("[circular]")];
  }

  lemma ItemsSnoc(h: Heap, items: seq<Val>, v: Val, depth: nat, seen: set<nat>)
    ensures var (ts, s) := SerializeItems(h, items, depth, seen);
      var (t, s') := Serialize(h, v, depth, s);
      SerializeItems(h, items + [v], depth, seen) == (ts + [t], s')
  {
    assert (items + [v])[..|items + [v]| - 1] == items;
  }

  /* ---------- on plain unshared trees it is the identity ---------- */

  /** A tree together with the addresses its containers live at. */
  datatype Plain =
    | PNullish
    | PPrim(value: nat)
    | PError(name: string, message: string, stack: string)
    | PArr(addr: nat, items: seq<Plain>)
    | PObj(addr: nat, fields: seq<(string, Plain)>)

  function Root(p: Plain): Val {
    match p
    case PNullish => Nullish
    case PPrim(v) => Prim(v)
    case PError(name, message, stack) => ErrorVal(name, message, stack)
    case PArr(a, _) => Ref(a)
    case PObj(a, _) => Ref(a)
  }

  /** The tree itself. */
  function Image(p: Plain): Tree
    decreases p, 0
  {
    match p
    case PNullish => TNullish
    case PPrim(v) => TPrim(v)
    case PError(name, message, stack) => TError(name, message, stack)
    case PArr(_, items) => TArr(Images(items))
    case PObj(_, fields) => TObj(FieldImages(fields))
  }

  function Images(ps: seq<Plain>): (r: seq<Tree>)
    ensures |r| == |ps|
    decreases ps, 1
  {
    if ps == [] then [] else Images(ps[..|ps| - 1]) + [Image(ps[|ps| - 1])]
  }

  function FieldImages(ps: seq<(string, Plain)>): (r: seq<(string, Tree)>)
    ensures |r| == |ps|
    decreases ps, 1
  {
    if ps == [] then []
    else
      assert ps[|ps| - 1].1 < ps[|ps| - 1];
      FieldImages(ps[..|ps| - 1]) + [(ps[|ps| - 1].0, Image(ps[|ps| - 1].1))]
  }

  function Roots(ps: seq<Plain>): seq<Val> {
    seq(|ps|, i requires 0 <= i < |ps| => Root(ps[i]))
  }

  function FieldRoots(ps: seq<(string, Plain)>): seq<(string, Access)> {
    seq(|ps|, i requires 0 <= i < |ps| => (ps[i].0, Got(Root(ps[i].1))))
  }

  function Addrs(p: Plain): set<nat>
    decreases p, 0
  {
    match p
    case PArr(a, items) => {a} + AddrsOf(items)
    case PObj(a, fields) => {a} + AddrsOfFields(fields)
    case _ => {}
  }

  function AddrsOf(ps: seq<Plain>): set<nat>
    decreases ps, 1
  {
    if ps == [] then {} else AddrsOf(ps[..|ps| - 1]) + Addrs(ps[|ps| - 1])
  }

  function AddrsOfFields(ps: seq<(string, Plain)>): set<nat>
    decreases ps, 1
  {
    if ps == [] then {}
    else
      assert ps[|ps| - 1].1 < ps[|ps| - 1];
      AddrsOfFields(ps[..|ps| - 1]) + Addrs(ps[|ps| - 1].1)
  }

  /** The heap holds the tree, no object occurs twice in it, it is lower than `depth` and nowhere wider than 20. */
  ghost predicate Fits(h: Heap, p: Plain, depth: nat)
    decreases p, 0
  {
    depth > 0 &&
    match p
    case PArr(a, items) =>
      && h(a) == Arr(Roots(items)) && a !in AddrsOf(items)
      && |items| <= WIDTH && FitAll(h, items, depth - 1)
    case PObj(a, fields) =>
      && h(a) == Obj(FieldRoots(fields)) && a !in AddrsOfFields(fields)
      && |fields| <= WIDTH && FieldsFit(h, fields, depth - 1)
    case _ => true
  }

  ghost predicate FitAll(h: Heap, ps: seq<Plain>, depth: nat)
    decreases ps, 1
  {
    ps == [] ||
    (FitAll(h, ps[..|ps| - 1], depth) && Fits(h, ps[|ps| - 1], depth) && AddrsOf(ps[..|ps| - 1]) !! Addrs(ps[|ps| - 1]))
  }

  ghost predicate FieldsFit(h: Heap, ps: seq<(string, Plain)>, depth: nat)
    decreases ps, 1
  {
    ps == [] ||
    (assert ps[|ps| - 1].1 < ps[|ps| - 1];
     && FieldsFit(h, ps[..|ps| - 1], depth) && Fits(h, ps[|ps| - 1].1, depth)
     && AddrsOfFields(ps[..|ps| - 1]) !! Addrs(ps[|ps| - 1].1))
  }

  /** Serialising a plain, unshared, low and narrow tree gives back the tree. */
  lemma {:induction false} IdentityOnPlainTrees(h: Heap, p: Plain, depth: nat, seen: set<nat>)
    requires Fits(h, p, depth) && Addrs(p) !! seen
    ensures Serialize(h, Root(p), depth, seen) == (Image(p), seen + Addrs(p))
    decreases p, 0
  {
    match p
    case PArr(a, items) =>
      IdentityOnItems(h, items, depth - 1, seen + {a});
      assert seen + {a} + AddrsOf(items) == seen + Addrs(p);
    case PObj(a, fields) =>
      IdentityOnFields(h, fields, depth - 1, seen + {a});
      assert seen + {a} + AddrsOfFields(fields) == seen + Addrs(p);
    case _ =>
      assert seen + {} == seen;
  }

  lemma {:induction false} IdentityOnItems(h: Heap, ps: seq<Plain>, depth: nat, seen: set<nat>)
    requires FitAll(h, ps, depth) && AddrsOf(ps) !! seen
    ensures SerializeItems(h, Roots(ps), depth, seen) == (Images(ps), seen + AddrsOf(ps))
    decreases ps, 1
  {
    if ps != [] {
      var n := |ps| - 1;
      IdentityOnItems(h, ps[..n], depth, seen);
      IdentityOnPlainTrees(h, ps[n], depth, seen + AddrsOf(ps[..n]));
      assert Roots(ps)[..n] == Roots(ps[..n]) && Roots(ps)[n] == Root(ps[n]);
      assert seen + AddrsOf(ps[..n]) + Addrs(ps[n]) == seen + AddrsOf(ps);
    } else {
      assert Roots(ps) == [] && seen + {} == seen;
    }
  }

  lemma {:induction false} IdentityOnFields(h: Heap, ps: seq<(string, Plain)>, depth: nat, seen: set<nat>)
    requires FieldsFit(h, ps, depth) && AddrsOfFields(ps) !! seen
    ensures SerializeFields(h, FieldRoots(ps), depth, seen) == (FieldImages(ps), seen + AddrsOfFields(ps))
    decreases ps, 1
  {
    if ps != [] {
      var n := |ps| - 1;
      assert ps[n].1 < ps[n];
      IdentityOnFields(h, ps[..n], depth, seen);
      IdentityOnPlainTrees(h, ps[n].1, depth, seen + AddrsOfFields(ps[..n]));
      assert FieldRoots(ps)[..n] == FieldRoots(ps[..n]);
      assert seen + AddrsOfFields(ps[..n]) + Addrs(ps[n].1) == seen + AddrsOfFields(ps);
    } else {
      assert FieldRoots(ps) == [] && seen + {} == seen;
    }
  }

  /* ---------- and on no other plain tree ---------- */

  /** The heap holds the tree, whatever it shares and however high and wide it is. */
  ghost predicate Holds(h: Heap, p: Plain)
    decreases p, 0
  {
    match p
    case PArr(a, items) => h(a) == Arr(Roots(items)) && HoldsAll(h, items)
    case PObj(a, fields) => h(a) == Obj(FieldRoots(fields)) && HoldsFields(h, fields)
    case _ => true
  }

  ghost predicate HoldsAll(h: Heap, ps: seq<Plain>)
    decreases ps, 1
  {
    ps == [] || (HoldsAll(h, ps[..|ps| - 1]) && Holds(h, ps[|ps| - 1]))
  }

  ghost predicate HoldsFields(h: Heap, ps: seq<(string, Plain)>)
    decreases ps, 1
  {
    ps == [] ||
    (assert ps[|ps| - 1].1 < ps[|ps| - 1];
     HoldsFields(h, ps[..|ps| - 1]) && Holds(h, ps[|ps| - 1].1))
  }

  lemma {:induction false} IdentityOnlyWhenItFits(h: Heap, p: Plain, depth: nat, seen: set<nat>)
    requires Holds(h, p)
    ensures Serialize(h, Root(p), depth, seen).0 == Image(p) ==> Fits(h, p, depth) && Addrs(p) !! seen
    decreases p, 0
  {
    if depth > 0 && Serialize(h, Root(p), depth, seen).0 == Image(p) {
      match p
      case PArr(a, items) =>
        assert |items| <= WIDTH && Take(Roots(items), WIDTH) == Roots(items);
        ItemsOnlyWhenTheyFit(h, items, depth - 1, seen + {a});
      case PObj(a, fields) =>
        assert |fields| <= WIDTH && Take(FieldRoots(fields), WIDTH) == FieldRoots(fields);
        FieldsOnlyWhenTheyFit(h, fields, depth - 1, seen + {a});
      case _ =>
    }
  }

  lemma {:induction false} ItemsOnlyWhenTheyFit(h: Heap, ps: seq<Plain>, depth: nat, seen: set<nat>)
    requires HoldsAll(h, ps)
    ensures SerializeItems(h, Roots(ps), depth, seen).0 == Images(ps) ==> FitAll(h, ps, depth) && AddrsOf(ps) !! seen
    decreases ps, 1
  {
    if ps != [] && SerializeItems(h, Roots(ps), depth, seen).0 == Images(ps) {
      var n := |ps| - 1;
      assert Roots(ps)[..n] == Roots(ps[..n]) && Roots(ps)[n] == Root(ps[n]);
      var (ts, s) := SerializeItems(h, Roots(ps[..n]), depth, seen);
      SameSnoc(ts, Serialize(h, Root(ps[n]), depth, s).0, Images(ps[..n]), Image(ps[n]));
      ItemsOnlyWhenTheyFit(h, ps[..n], depth, seen);
      IdentityOnItems(h, ps[..n], depth, seen);
      IdentityOnlyWhenItFits(h, ps[n], depth, s);
    }
  }

  lemma {:induction false} FieldsOnlyWhenTheyFit(h: Heap, ps: seq<(string, Plain)>, depth: nat, seen: set<nat>)
    requires HoldsFields(h, ps)
    ensures SerializeFields(h, FieldRoots(ps), depth, seen).0 == FieldImages(ps) ==>
              FieldsFit(h, ps, depth) && AddrsOfFields(ps) !! seen
    decreases ps, 1
  {
    if ps != [] && SerializeFields(h, FieldRoots(ps), depth, seen).0 == FieldImages(ps) {
      var n := |ps| - 1;
      assert ps[n].1 < ps[n];
      assert FieldRoots(ps)[..n] == FieldRoots(ps[..n]) && FieldRoots(ps)[n] == (ps[n].0, Got(Root(ps[n].1)));
      var (ts, s) := SerializeFields(h, FieldRoots(ps[..n]), depth, seen);
      var t := Serialize(h, Root(ps[n].1), depth, s).0;
      assert SerializeFields(h, FieldRoots(ps), depth, seen).0 == ts + [(ps[n].0, t)];
      assert FieldImages(ps) == FieldImages(ps[..n]) + [(ps[n].0, Image(ps[n].1))];
      SameSnoc(ts, (ps[n].0, t), FieldImages(ps[..n]), (ps[n].0, Image(ps[n].1)));
      FieldsOnlyWhenTheyFit(h, ps[..n], depth, seen);
      IdentityOnFields(h, ps[..n], depth, seen);
      IdentityOnlyWhenItFits(h, ps[n].1, depth, s);
    }
  }

  lemma SameSnoc<T>(xs: seq<T>, x: T, ys: seq<T>, y: T)
    requires xs + [x] == ys + [y]
    ensures xs == ys && x == y
  {
    assert xs == (xs + [x])[..|xs|] && ys == (ys + [y])[..|ys|];
    assert x == (xs + [x])[|xs|] && y == (ys + [y])[|ys|];
  }

  /* ---------- what fitting means ---------- */

  predicate Lower(p: Plain, depth: nat)
    decreases p, 0
  {
    depth > 0 &&
    match p
    case PArr(_, items) => LowerAll(items, depth - 1)
    case PObj(_, fields) => LowerFields(fields, depth - 1)
    case _ => true
  }

  predicate LowerAll(ps: seq<Plain>, depth: nat)
    decreases ps, 1
  {
    ps == [] || (LowerAll(ps[..|ps| - 1], depth) && Lower(ps[|ps| - 1], depth))
  }

  predicate LowerFields(ps: seq<(string, Plain)>, depth: nat)
    decreases ps, 1
  {
    ps == [] ||
    (assert ps[|ps| - 1].1 < ps[|ps| - 1];
     LowerFields(ps[..|ps| - 1], depth) && Lower(ps[|ps| - 1].1, depth))
  }

  predicate Narrow(p: Plain)
    decreases p, 0
  {
    match p
    case PArr(_, items) => |items| <= 20 && NarrowAll(items)
    case PObj(_, fields) => |fields| <= 20 && NarrowFields(fields)
    case _ => true
  }

  predicate NarrowAll(ps: seq<Plain>)
    decreases ps, 1
  {
    ps == [] || (NarrowAll(ps[..|ps| - 1]) && Narrow(ps[|ps| - 1]))
  }

  predicate NarrowFields(ps: seq<(string, Plain)>)
    decreases ps, 1
  {
    ps == [] ||
    (assert ps[|ps| - 1].1 < ps[|ps| - 1];
     NarrowFields(ps[..|ps| - 1]) && Narrow(ps[|ps| - 1].1))
  }

  /** Every occurrence of a container in the tree, by its address. */
  function Occurrences(p: Plain): seq<nat>
    decreases p, 0
  {
    match p
    case PArr(a, items) => [a] + OccurrencesIn(items)
    case PObj(a, fields) => [a] + OccurrencesInFields(fields)
    case _ => []
  }

  function OccurrencesIn(ps: seq<Plain>): seq<nat>
    decreases ps, 1
  {
    if ps == [] then [] else OccurrencesIn(ps[..|ps| - 1]) + Occurrences(ps[|ps| - 1])
  }

  function OccurrencesInFields(ps: seq<(string, Plain)>): seq<nat>
    decreases ps, 1
  {
    if ps == [] then []
    else
      assert ps[|ps| - 1].1 < ps[|ps| - 1];
      OccurrencesInFields(ps[..|ps| - 1]) + Occurrences(ps[|ps| - 1].1)
  }

  lemma {:induction false} AddrsOccur(p: Plain)
    ensures forall a :: a in Addrs(p) <==> a in Occurrences(p)
    decreases p, 0
  {
    match p
    case PArr(_, items) => AddrsOfOccur(items);
    case PObj(_, fields) => AddrsOfFieldsOccur(fields);
    case _ =>
  }

  lemma {:induction false} AddrsOfOccur(ps: seq<Plain>)
    ensures forall a :: a in AddrsOf(ps) <==> a in OccurrencesIn(ps)
    decreases ps, 1
  {
    if ps != [] {
      AddrsOfOccur(ps[..|ps| - 1]);
      AddrsOccur(ps[|ps| - 1]);
    }
  }

  lemma {:induction false} AddrsOfFieldsOccur(ps: seq<(string, Plain)>)
    ensures forall a :: a in AddrsOfFields(ps) <==> a in OccurrencesInFields(ps)
    decreases ps, 1
  {
    if ps != [] {
      assert ps[|ps| - 1].1 < ps[|ps| - 1];
      AddrsOfFieldsOccur(ps[..|ps| - 1]);
      AddrsOccur(ps[|ps| - 1].1);
    }
  }

  lemma {:induction false} FittingMeans(h: Heap, p: Plain, depth: nat)
    requires Holds(h, p)
    ensures Fits(h, p, depth) <==> Lower(p, depth) && Narrow(p) && NoDup(Occurrences(p))
    decreases p, 0
  {
    match p
    case PArr(a, items) =>
      if depth > 0 {
        FittingItemsMeans(h, items, depth - 1);
        AddrsOfOccur(items);
        NoDupOfConcat([a], OccurrencesIn(items));
      }
    case PObj(a, fields) =>
      if depth > 0 {
        FittingFieldsMeans(h, fields, depth - 1);
        AddrsOfFieldsOccur(fields);
        NoDupOfConcat([a], OccurrencesInFields(fields));
      }
    case _ =>
  }

  lemma {:induction false} FittingItemsMeans(h: Heap, ps: seq<Plain>, depth: nat)
    requires HoldsAll(h, ps)
    ensures FitAll(h, ps, depth) <==> LowerAll(ps, depth) && NarrowAll(ps) && NoDup(OccurrencesIn(ps))
    decreases ps, 1
  {
    if ps != [] {
      var n := |ps| - 1;
      FittingItemsMeans(h, ps[..n], depth);
      FittingMeans(h, ps[n], depth);
      AddrsOfOccur(ps[..n]);
      AddrsOccur(ps[n]);
      NoDupOfConcat(OccurrencesIn(ps[..n]), Occurrences(ps[n]));
    }
  }

  lemma {:induction false} FittingFieldsMeans(h: Heap, ps: seq<(string, Plain)>, depth: nat)
    requires HoldsFields(h, ps)
    ensures FieldsFit(h, ps, depth) <==> LowerFields(ps, depth) && NarrowFields(ps) && NoDup(OccurrencesInFields(ps))
    decreases ps, 1
  {
    if ps != [] {
      var n := |ps| - 1;
      assert ps[n].1 < ps[n];
      FittingFieldsMeans(h, ps[..n], depth);
      FittingMeans(h, ps[n].1, depth);
      AddrsOfFieldsOccur(ps[..n]);
      AddrsOccur(ps[n].1);
      NoDupOfConcat(OccurrencesInFields(ps[..n]), Occurrences(ps[n].1));
    }
  }

  /**
   Exactly which plain values survive: those lower than the depth, at most 20 wide, in which no container
   occurs twice. Sharing alone, without any cycle, is enough to lose the value.
   */
  lemma IdentityExactly(h: Heap, p: Plain, depth: nat)
    requires Holds(h, p)
    ensures Serialize(h, Root(p), depth, {}).0 == Image(p) <==>
              Lower(p, depth) && Narrow(p) && NoDup(Occurrences(p))
  {
    FittingMeans(h, p, depth);
    IdentityOnlyWhenItFits(h, p, depth, {});
    if Fits(h, p, depth) {
      IdentityOnPlainTrees(h, p, depth, {});
    }
  }
}
