/** Lua values to JSON and back, inside the code worker: a recursive walk over a heap of tables that may
    share and may be cyclic, under a depth limit and an item budget. */
module LuaJson {
  import opened Basics

  const MAX_DEPTH: nat := 32
  const MAX_ITEMS: nat := 10000

  datatype Json =
    | Null | Bool(b: bool) | Number(n: real) | Text(s: string)
    | List(items: seq<Json>) | Object(fields: map<string, Json>)

  type Ref = nat

  datatype LValue = Nil | LBool(b: bool) | LNumber(n: real) | LString(s: string) | LTable(ref: Ref) | LOther

  /** A table key: a number equal to its integer part, any other number, a string, anything else. */
  datatype Key = IntKey(n: int) | FracKey | StrKey(s: string) | OtherKey

  datatype Entry = Entry(key: Key, item: LValue)

  /** What the walk sees of a table: its `ForEach` sequence and its `Len`. */
  datatype Table = Table(entries: seq<Entry>, len: nat)

  type Heap = map<Ref, Table>

  datatype Error = ValueLimit | CyclicTable | ObjectKey | MixedTable | Unsupported

  /** The array and object being filled while one table is walked. */
  datatype Filling = Filling(slots: seq<Json>, named: map<string, Json>, arrayOnly: bool, maxIndex: nat)

  const FRESH: Filling := Filling([], map[], true, 0)

  function Max(a: nat, b: nat): nat { if a > b then a else b }

  /** The array grown with nulls to hold `index` elements, the last of them `value`. */
  function Place(slots: seq<Json>, index: nat, value: Json): seq<Json>
    requires index >= 1
  {
    var grown := if |slots| < index then slots + seq(index - |slots|, _ => Null) else slots;
    grown[index - 1 := value]
  }

  function Put(f: Filling, key: Key, value: Json): Result<Filling, Error> {
    match key
    case IntKey(n) =>
      if n >= 1 then Ok(f.(slots := Place(f.slots, n, value), maxIndex := Max(f.maxIndex, n))) else Err(ObjectKey)
    case StrKey(s) => Ok(f.(arrayOnly := false, named := f.named[s := value]))
    case _ => Err(ObjectKey)
  }

  function Finish(f: Filling, len: nat): Result<Json, Error> {
    if f.arrayOnly && f.maxIndex == len then Ok(List(f.slots))
    else if |f.slots| > 0 then Err(MixedTable)
    else Ok(Object(f.named))
  }

  /** `luaToJSON` as a function: its answer and the item counter it leaves. */
  function ToJson(h: Heap, v: LValue, depth: nat, visiting: set<Ref>, items: nat): (Result<Json, Error>, nat)
    decreases if depth > MAX_DEPTH then 0 else MAX_DEPTH + 1 - depth, 1, 0
  {
    if depth > MAX_DEPTH || items > MAX_ITEMS then (Err(ValueLimit), items)
    else
      match v
      case Nil => (Ok(Null), items + 1)
      case LBool(b) => (Ok(Bool(b)), items + 1)
      case LString(s) => (Ok(Text(s)), items + 1)
      case LNumber(n) => (Ok(Number(n)), items + 1)
      case LOther => (Err(Unsupported), items + 1)
      case LTable(r) =>
        if r !in h then (Err(Unsupported), items + 1)
        else if r in visiting then (Err(CyclicTable), items + 1)
        else
          var (f, n) := Walk(h, h[r].entries, depth + 1, visiting + {r}, items + 1, FRESH);
          (if f.Err? then Err(f.error) else Finish(f.value, h[r].len), n)
  }

  /** The entries of one table, each converted at `depth`. */
  function Walk(h: Heap, es: seq<Entry>, depth: nat, visiting: set<Ref>, items: nat, f: Filling)
      : (Result<Filling, Error>, nat)
    decreases if depth > MAX_DEPTH then 0 else MAX_DEPTH + 1 - depth, 2, |es|
  {
    if es == [] then (Ok(f), items)
    else
      var (j, n) := ToJson(h, es[0].item, depth, visiting, items);
      if j.Err? then (Err(j.error), n)
      else
        var g := Put(f, es[0].key, j.value);
        if g.Err? then (Err(g.error), n) else Walk(h, es[1..], depth, visiting, n, g.value)
  }

  // ---------------------------------------------------------------- what every success rules out

  /** If a table converts, every item in it converted. */
  lemma {:induction false} WalkChild(h: Heap, es: seq<Entry>, depth: nat, visiting: set<Ref>, items: nat, f: Filling,
                                     i: nat) returns (n: nat)
    requires Walk(h, es, depth, visiting, items, f).0.Ok? && i < |es|
    ensures ToJson(h, es[i].item, depth, visiting, n).0.Ok?
    decreases |es|
  {
    var (j, m) := ToJson(h, es[0].item, depth, visiting, items);
    if i == 0 {
      n := items;
    } else {
      n := WalkChild(h, es[1..], depth, visiting, m, Put(f, es[0].key, j.value).value, i - 1);
    }
  }

  ghost predicate HasChild(h: Heap, r: Ref, child: Ref) {
    r in h && exists i :: 0 <= i < |h[r].entries| && h[r].entries[i].item == LTable(child)
  }

  ghost predicate IsPath(h: Heap, p: seq<Ref>) {
    forall i :: 0 <= i < |p| - 1 ==> HasChild(h, p[i], p[i + 1])
  }

  /** Success means that no path from the value meets a table twice, or one already being visited, and
      that no path is longer than the depth limit allows. */
  lemma {:induction false} PathsAreSimple(h: Heap, p: seq<Ref>, depth: nat, visiting: set<Ref>, items: nat)
    requires p != [] && IsPath(h, p) && ToJson(h, LTable(p[0]), depth, visiting, items).0.Ok?
    ensures forall i :: 0 <= i < |p| ==> p[i] !in visiting
    ensures forall i, j :: 0 <= i < j < |p| ==> p[i] != p[j]
    ensures depth + |p| <= 33
    decreases |p|
  {
    if |p| > 1 {
      assert HasChild(h, p[0], p[1]);
      var k :| 0 <= k < |h[p[0]].entries| && h[p[0]].entries[k].item == LTable(p[1]);
      var n := WalkChild(h, h[p[0]].entries, depth + 1, visiting + {p[0]}, items + 1, FRESH, k);
      var t := p[1..];
      forall i | 0 <= i < |t| - 1 ensures HasChild(h, t[i], t[i + 1]) {
        assert HasChild(h, p[i + 1], p[i + 2]);
      }
      PathsAreSimple(h, t, depth + 1, visiting + {p[0]}, n);
      forall i, j | 0 <= i < j < |p| ensures p[i] != p[j] && p[j] !in visiting {
        assert p[j] == t[j - 1];
        assert i > 0 ==> p[i] == t[i - 1];
      }
    }
  }

  /** Every cycle reachable from the value is rejected. */
  lemma CyclesRejected(h: Heap, p: seq<Ref>, i: nat, j: nat, depth: nat, visiting: set<Ref>, items: nat)
    requires i < j < |p| && p[i] == p[j] && IsPath(h, p)
    ensures ToJson(h, LTable(p[0]), depth, visiting, items).0.Err?
  {
    if ToJson(h, LTable(p[0]), depth, visiting, items).0.Ok? {
      PathsAreSimple(h, p, depth, visiting, items);
    }
  }

  predicate Positional(k: Key) { k.IntKey? && k.n >= 1 }

  /** What walking a list of entries leaves behind tells which kinds of key it met. */
  lemma {:induction false} WalkKeys(h: Heap, es: seq<Entry>, depth: nat, visiting: set<Ref>, items: nat, f: Filling)
    requires Walk(h, es, depth, visiting, items, f).0.Ok?
    ensures var g := Walk(h, es, depth, visiting, items, f).0.value;
            && |g.slots| >= |f.slots| && (g.arrayOnly ==> f.arrayOnly)
            && ((exists i :: 0 <= i < |es| && Positional(es[i].key)) ==> |g.slots| > 0)
            && ((exists i :: 0 <= i < |es| && !Positional(es[i].key)) ==> !g.arrayOnly)
    ensures forall i :: 0 <= i < |es| ==> Positional(es[i].key) || es[i].key.StrKey?
    decreases |es|
  {
    if es != [] {
      var (j, n) := ToJson(h, es[0].item, depth, visiting, items);
      var g := Put(f, es[0].key, j.value).value;
      WalkKeys(h, es[1..], depth, visiting, n, g);
      assert forall i :: 1 <= i < |es| ==> es[i] == es[1..][i - 1];
    }
  }

  /** A table that mixes positional keys with others never converts, nor does one with a key that is
      neither positional nor a string. */
  lemma MixedTablesRejected(h: Heap, r: Ref, depth: nat, visiting: set<Ref>, items: nat, i: nat, k: nat)
    requires r in h && i < |h[r].entries| && k < |h[r].entries|
    requires var a, b := h[r].entries[i].key, h[r].entries[k].key;
             (Positional(a) && !Positional(b)) || (!Positional(a) && !a.StrKey?)
    ensures ToJson(h, LTable(r), depth, visiting, items).0.Err?
  {
    if ToJson(h, LTable(r), depth, visiting, items).0.Ok? {
      WalkKeys(h, h[r].entries, depth + 1, visiting + {r}, items + 1, FRESH);
    }
  }

  // ---------------------------------------------------------------- round trip

  /** `v` is a table tree for `j`: what `jsonToLua` builds. Lists are positional and in order, objects
      carry their names in any order, and no table lies below itself. Lua tables hold no nil. */
  ghost predicate Represents(h: Heap, v: LValue, j: Json, above: set<Ref>)
    decreases j, 1, 0
  {
    match j
    case Null => v.Nil?
    case Bool(b) => v == LBool(b)
    case Number(n) => v == LNumber(n)
    case Text(s) => v == LString(s)
    case List(js) =>
      && v.LTable? && v.ref in h && v.ref !in above && h[v.ref].len == |js|
      && RepresentsItems(h, h[v.ref].entries, js, 1, above + {v.ref})
    case Object(fields) =>
      && v.LTable? && v.ref in h && v.ref !in above && h[v.ref].len == 0
      && RepresentsFields(h, h[v.ref].entries, j, fields, above + {v.ref})
  }

  /** The entries hold the items in order, from position `next` on. */
  ghost predicate RepresentsItems(h: Heap, es: seq<Entry>, js: seq<Json>, next: nat, above: set<Ref>)
    decreases js, 0, |js|
  {
    |es| == |js| &&
    (js != [] ==>
       && es[0].key == IntKey(next) && !js[0].Null? && Represents(h, es[0].item, js[0], above)
       && RepresentsItems(h, es[1..], js[1..], next + 1, above))
  }

  /** The entries name every one of `fields`, part of the object `whole`, exactly once. */
  ghost predicate RepresentsFields(h: Heap, es: seq<Entry>, whole: Json, fields: map<string, Json>, above: set<Ref>)
    requires whole.Object? && fields.Items <= whole.fields.Items
    decreases whole, 0, |es|
  {
    if es == [] then fields == map[]
    else
      && es[0].key.StrKey? && es[0].key.s in fields
      && var name := es[0].key.s;
         assert (name, fields[name]) in fields.Items;
         && !fields[name].Null? && Represents(h, es[0].item, fields[name], above)
         && RepresentsFields(h, es[1..], whole, fields - {name}, above)
  }

  /** At most `levels` levels below the value. */
  ghost predicate DepthWithin(j: Json, levels: int) {
    levels >= 0 &&
    match j
    case List(js) => forall i :: 0 <= i < |js| ==> DepthWithin(js[i], levels - 1)
    case Object(fields) => forall name :: name in fields ==> DepthWithin(fields[name], levels - 1)
    case _ => true
  }

  ghost function Nodes(j: Json): nat
    decreases j, 1
  {
    match j
    case List(js) => 1 + NodesOfItems(js)
    case Object(fields) => 1 + NodesOfFields(j, fields)
    case _ => 1
  }

  ghost function NodesOfItems(js: seq<Json>): nat
    decreases js, 0
  {
    if js == [] then 0 else Nodes(js[0]) + NodesOfItems(js[1..])
  }

  ghost function SomeName(fields: map<string, Json>): (name: string)
    requires fields != map[]
    ensures name in fields
  {
    var name :| name in fields;
    name
  }

  ghost function NodesOfFields(whole: Json, fields: map<string, Json>): nat
    requires whole.Object? && fields.Items <= whole.fields.Items
    decreases whole, 0, fields.Keys
  {
    if fields == map[] then 0
    else
      var name := SomeName(fields);
      assert (name, fields[name]) in fields.Items;
      Nodes(fields[name]) + NodesOfFields(whole, fields - {name})
  }

  /** The count does not depend on the order in which the fields are taken. */
  lemma {:induction false} NodesRemove(whole: Json, fields: map<string, Json>, name: string)
    requires whole.Object? && fields.Items <= whole.fields.Items && name in fields
    ensures NodesOfFields(whole, fields) == Nodes(fields[name]) + NodesOfFields(whole, fields - {name})
    decreases fields.Keys
  {
    var k := SomeName(fields);
    if k != name {
      NodesRemove(whole, fields - {k}, name);
      NodesRemove(whole, fields - {name}, k);
      assert fields - {k} - {name} == fields - {name} - {k};
    }
  }

  /** `j` with every empty object turned into an empty list: an empty table is read as a list. */
  ghost function Canonical(j: Json): Json
    decreases j, 1
  {
    match j
    case List(js) => List(CanonicalItems(js))
    case Object(fields) =>
      if fields == map[] then List([]) else Object(map name | name in fields :: Canonical(fields[name]))
    case _ => j
  }

  ghost function CanonicalFields(fields: map<string, Json>): map<string, Json> {
    map name | name in fields :: Canonical(fields[name])
  }

  ghost function CanonicalItems(js: seq<Json>): (r: seq<Json>)
    ensures |r| == |js|
    decreases js, 0
  {
    if js == [] then [] else [Canonical(js[0])] + CanonicalItems(js[1..])
  }

  ghost predicate NoEmptyObject(j: Json) {
    match j
    case List(js) => forall i :: 0 <= i < |js| ==> NoEmptyObject(js[i])
    case Object(fields) => fields != map[] && forall name :: name in fields ==> NoEmptyObject(fields[name])
    case _ => true
  }

  lemma {:induction false} CanonicalAt(js: seq<Json>, i: nat)
    requires i < |js|
    ensures CanonicalItems(js)[i] == Canonical(js[i])
  {
    if i > 0 {
      CanonicalAt(js[1..], i - 1);
    }
  }

  lemma {:induction false} CanonicalIdentity(j: Json)
    ensures Canonical(j) == j <==> NoEmptyObject(j)
  {
    match j
    case List(js) =>
      forall i | 0 <= i < |js| ensures CanonicalItems(js)[i] == js[i] <==> NoEmptyObject(js[i]) {
        CanonicalAt(js, i);
        CanonicalIdentity(js[i]);
      }
    case Object(fields) =>
      forall name | name in fields ensures Canonical(fields[name]) == fields[name] <==> NoEmptyObject(fields[name]) {
        CanonicalIdentity(fields[name]);
      }
      if fields != map[] {
        var r := Canonical(j).fields;
        assert r.Keys == fields.Keys;
        assert (forall name :: name in fields ==> r[name] == fields[name]) ==> r == fields;
      }
    case _ =>
  }

  /** The value stays within both limits when its walk starts at `depth` with `items` counted. */
  ghost predicate Fits(j: Json, depth: nat, items: nat) {
    DepthWithin(j, MAX_DEPTH - depth) && items + Nodes(j) <= MAX_ITEMS + 1
  }

  ghost predicate FitsItems(js: seq<Json>, depth: nat, items: nat) {
    && (forall i :: 0 <= i < |js| ==> DepthWithin(js[i], MAX_DEPTH - depth))
    && (js == [] || items + NodesOfItems(js) <= MAX_ITEMS + 1)
  }

  ghost predicate FitsFields(whole: Json, fields: map<string, Json>, depth: nat, items: nat)
    requires whole.Object? && fields.Items <= whole.fields.Items
  {
    && (forall name :: name in fields ==> DepthWithin(fields[name], MAX_DEPTH - depth))
    && (fields == map[] || items + NodesOfFields(whole, fields) <= MAX_ITEMS + 1)
  }

  lemma FitsItemsStep(js: seq<Json>, depth: nat, items: nat)
    requires js != []
    ensures FitsItems(js, depth, items) <==>
                Fits(js[0], depth, items) && FitsItems(js[1..], depth, items + Nodes(js[0]))
  {
    var t := js[1..];
    assert js == [js[0]] + t;
    assert NodesOfItems(js) == Nodes(js[0]) + NodesOfItems(t);
    assert (forall i :: 0 <= i < |js| ==> DepthWithin(js[i], MAX_DEPTH - depth)) <==>
           DepthWithin(js[0], MAX_DEPTH - depth)
           && (forall i :: 0 <= i < |t| ==> DepthWithin(t[i], MAX_DEPTH - depth)) by {
      forall i | 0 <= i < |t| ensures t[i] == js[i + 1] {
      }
      forall i | 1 <= i < |js| ensures js[i] == t[i - 1] {
      }
    }
  }

  lemma FitsFieldsStep(whole: Json, fields: map<string, Json>, name: string, depth: nat, items: nat)
    requires whole.Object? && fields.Items <= whole.fields.Items && name in fields
    ensures FitsFields(whole, fields, depth, items) <==>
            Fits(fields[name], depth, items) && FitsFields(whole, fields - {name}, depth, items + Nodes(fields[name]))
  {
    NodesRemove(whole, fields, name);
    var rest := fields - {name};
    assert forall n :: n in fields <==> n == name || n in rest;
  }

  /** Converting a table tree for `j` succeeds exactly when `j` fits the limits, and then gives `j` back
      up to empty objects, having counted exactly its nodes. */
  lemma {:induction false} ConvertRepresented(h: Heap, v: LValue, j: Json, depth: nat, above: set<Ref>, items: nat)
    requires Represents(h, v, j, above)
    ensures Fits(j, depth, items) ==> ToJson(h, v, depth, above, items) == (Ok(Canonical(j)), items + Nodes(j))
    ensures !Fits(j, depth, items) ==> ToJson(h, v, depth, above, items).0 == Err(ValueLimit)
    decreases j, 1, 0
  {
    if depth <= MAX_DEPTH && items <= MAX_ITEMS {
      match j
      case List(js) =>
        WalkList(h, h[v.ref].entries, js, depth + 1, above + {v.ref}, items + 1, FRESH);
        assert [] + CanonicalItems(js) == CanonicalItems(js);
      case Object(fields) =>
        WalkObject(h, h[v.ref].entries, j, fields, depth + 1, above + {v.ref}, items + 1, FRESH);
        assert map[] + CanonicalFields(fields) == CanonicalFields(fields);
      case _ =>
    }
  }

  ghost function FilledList(f: Filling, js: seq<Json>): Filling {
    f.(slots := f.slots + CanonicalItems(js), maxIndex := |f.slots| + |js|)
  }

  lemma FilledListStep(f: Filling, js: seq<Json>)
    requires js != [] && f.maxIndex == |f.slots|
    ensures var c := Canonical(js[0]);
            var g := f.(slots := f.slots + [c], maxIndex := |f.slots| + 1);
            Put(f, IntKey(|f.slots| + 1), c) == Ok(g) && FilledList(g, js[1..]) == FilledList(f, js)
  {
    assert Place(f.slots, |f.slots| + 1, Canonical(js[0])) == f.slots + [Canonical(js[0])];
    assert f.slots + [Canonical(js[0])] + CanonicalItems(js[1..]) == f.slots + CanonicalItems(js);
  }

  lemma {:induction false} WalkList(h: Heap, es: seq<Entry>, js: seq<Json>, depth: nat, above: set<Ref>, items: nat,
                                    f: Filling)
    requires f.maxIndex == |f.slots| && RepresentsItems(h, es, js, |f.slots| + 1, above)
    ensures FitsItems(js, depth, items) ==>
              Walk(h, es, depth, above, items, f) == (Ok(FilledList(f, js)), items + NodesOfItems(js))
    ensures !FitsItems(js, depth, items) ==> Walk(h, es, depth, above, items, f).0 == Err(ValueLimit)
    decreases js, 0, |js|
  {
    if js == [] {
      assert f.slots + CanonicalItems(js) == f.slots;
    } else {
      ConvertRepresented(h, es[0].item, js[0], depth, above, items);
      FitsItemsStep(js, depth, items);
      if Fits(js[0], depth, items) {
        FilledListStep(f, js);
        var g := f.(slots := f.slots + [Canonical(js[0])], maxIndex := |f.slots| + 1);
        WalkList(h, es[1..], js[1..], depth, above, items + Nodes(js[0]), g);
      }
    }
  }

  ghost function FilledObject(f: Filling, fields: map<string, Json>): Filling {
    f.(named := f.named + CanonicalFields(fields), arrayOnly := f.arrayOnly && fields == map[])
  }

  lemma FilledObjectStep(f: Filling, fields: map<string, Json>, name: string)
    requires name in fields
    ensures var g := f.(arrayOnly := false, named := f.named[name := Canonical(fields[name])]);
            Put(f, StrKey(name), Canonical(fields[name])) == Ok(g)
            && FilledObject(g, fields - {name}) == FilledObject(f, fields)
  {
    assert f.named[name := Canonical(fields[name])] + CanonicalFields(fields - {name}) ==
               f.named + CanonicalFields(fields);
  }

  lemma {:induction false} WalkObject(h: Heap, es: seq<Entry>, whole: Json, fields: map<string, Json>, depth: nat,
                                      above: set<Ref>, items: nat, f: Filling)
    requires whole.Object? && fields.Items <= whole.fields.Items && RepresentsFields(h, es, whole, fields, above)
    ensures FitsFields(whole, fields, depth, items) ==>
              Walk(h, es, depth, above, items, f) == (Ok(FilledObject(f, fields)), items + NodesOfFields(whole, fields))
    ensures !FitsFields(whole, fields, depth, items) ==> Walk(h, es, depth, above, items, f).0 == Err(ValueLimit)
    decreases whole, 0, |es|
  {
    if es == [] {
      assert f.named + CanonicalFields(fields) == f.named;
    } else {
      var name := es[0].key.s;
      assert (name, fields[name]) in fields.Items;
      ConvertRepresented(h, es[0].item, fields[name], depth, above, items);
      FitsFieldsStep(whole, fields, name, depth, items);
      if Fits(fields[name], depth, items) {
        FilledObjectStep(f, fields, name);
        NodesRemove(whole, fields, name);
        var g := f.(arrayOnly := false, named := f.named[name := Canonical(fields[name])]);
        WalkObject(h, es[1..], whole, fields - {name}, depth, above, items + Nodes(fields[name]), g);
      }
    }
  }

  // ---------------------------------------------------------------- the size of the result

  /** No two entries of the list have the same key. */
  ghost predicate UniqueKeys(es: seq<Entry>) {
    forall i, j :: 0 <= i < j < |es| ==> es[i].key != es[j].key
  }

  /** As Lua keeps its tables. */
  ghost predicate LuaTables(h: Heap) { forall r :: r in h ==> UniqueKeys(h[r].entries) }

  /** The slots a positional table is padded with: its length, less the entries it has. */
  function OwnPadding(t: Table): int {
    if t.entries != [] && Positional(t.entries[0].key) then t.len - |t.entries| else 0
  }

  /** The padding of every table on the way down, as often as it is met. */
  function Padding(h: Heap, v: LValue, depth: nat): int
    decreases if depth > MAX_DEPTH then 0 else MAX_DEPTH + 1 - depth, 1, 0
  {
    if depth > MAX_DEPTH || !v.LTable? || v.ref !in h then 0
    else OwnPadding(h[v.ref]) + PaddingAll(h, h[v.ref].entries, depth + 1)
  }

  function PaddingAll(h: Heap, es: seq<Entry>, depth: nat): int
    decreases if depth > MAX_DEPTH then 0 else MAX_DEPTH + 1 - depth, 2, |es|
  {
    if es == [] then 0 else Padding(h, es[0].item, depth) + PaddingAll(h, es[1..], depth)
  }

  function PositionalCount(es: seq<Entry>): nat {
    if es == [] then 0 else (if Positional(es[0].key) then 1 else 0) + PositionalCount(es[1..])
  }

  ghost function NodesOfNamed(fields: map<string, Json>): nat { NodesOfFields(Object(fields), fields) }

  lemma {:induction false} NodesAnyWhole(a: Json, b: Json, fields: map<string, Json>)
    requires a.Object? && fields.Items <= a.fields.Items && b.Object? && fields.Items <= b.fields.Items
    ensures NodesOfFields(a, fields) == NodesOfFields(b, fields)
    decreases fields.Keys
  {
    if fields != map[] {
      NodesAnyWhole(a, b, fields - {SomeName(fields)});
    }
  }

  lemma NodesNamedNext(fields: map<string, Json>, name: string, v: Json)
    requires name !in fields
    ensures NodesOfNamed(fields[name := v]) == NodesOfNamed(fields) + Nodes(v)
  {
    var more := fields[name := v];
    NodesRemove(Object(more), more, name);
    assert more - {name} == fields;
    NodesAnyWhole(Object(more), Object(fields), fields);
  }

  lemma {:induction false} NodesAppend(js: seq<Json>, ks: seq<Json>)
    ensures NodesOfItems(js + ks) == NodesOfItems(js) + NodesOfItems(ks)
  {
    if js == [] {
      assert js + ks == ks;
    } else {
      assert (js + ks)[1..] == js[1..] + ks;
      NodesAppend(js[1..], ks);
    }
  }

  lemma {:induction false} NodesOfNulls(n: nat)
    ensures NodesOfItems(seq(n, _ => Null)) == n
  {
    if n > 0 {
      assert seq(n, _ => Null)[1..] == seq(n - 1, _ => Null);
      NodesOfNulls(n - 1);
    }
  }

  lemma NodesReplaced(js: seq<Json>, i: nat, v: Json)
    requires i < |js| && js[i].Null?
    ensures NodesOfItems(js[i := v]) == NodesOfItems(js) + Nodes(v) - 1
  {
    var front, back := js[..i], js[i + 1..];
    assert js == front + ([js[i]] + back) && js[i := v] == front + ([v] + back);
    NodesAppend(front, [js[i]] + back);
    NodesAppend(front, [v] + back);
    assert ([js[i]] + back)[1..] == back && ([v] + back)[1..] == back;
  }

  /** Filling a free position adds the value in place of one null, and every position skipped is a null. */
  lemma PlaceNodes(slots: seq<Json>, n: nat, v: Json)
    requires n >= 1 && (n <= |slots| ==> slots[n - 1].Null?)
    ensures NodesOfItems(Place(slots, n, v)) - |Place(slots, n, v)| == NodesOfItems(slots) - |slots| + Nodes(v) - 1
  {
    if |slots| < n {
      var nulls := seq(n - |slots|, _ => Null);
      NodesAppend(slots, nulls);
      NodesOfNulls(n - |slots|);
      NodesReplaced(slots + nulls, n - 1, v);
    } else {
      NodesReplaced(slots, n - 1, v);
    }
  }

  /** Every key still to come is free in what has been filled. */
  ghost predicate FreeIn(es: seq<Entry>, f: Filling) {
    forall i :: 0 <= i < |es| ==>
      (Positional(es[i].key) && es[i].key.n <= |f.slots| ==> f.slots[es[i].key.n - 1].Null?)
      && (es[i].key.StrKey? ==> es[i].key.s !in f.named)
  }

  ghost function Weight(f: Filling): int { NodesOfItems(f.slots) - |f.slots| + NodesOfNamed(f.named) }

  lemma FreeStep(es: seq<Entry>, f: Filling, v: Json)
    requires es != [] && UniqueKeys(es) && FreeIn(es, f) && Put(f, es[0].key, v).Ok?
    ensures UniqueKeys(es[1..]) && FreeIn(es[1..], Put(f, es[0].key, v).value)
  {
    var g := Put(f, es[0].key, v).value;
    forall i | 0 <= i < |es[1..]|
      ensures Positional(es[1..][i].key) && es[1..][i].key.n <= |g.slots| ==> g.slots[es[1..][i].key.n - 1].Null?
      ensures es[1..][i].key.StrKey? ==> es[1..][i].key.s !in g.named
    {
      assert es[1..][i] == es[i + 1] && es[0].key != es[i + 1].key;
    }
  }

  lemma PutWeight(f: Filling, key: Key, v: Json)
    requires Put(f, key, v).Ok?
    requires Positional(key) && key.n <= |f.slots| ==> f.slots[key.n - 1].Null?
    requires key.StrKey? ==> key.s !in f.named
    ensures Weight(Put(f, key, v).value) == Weight(f) + Nodes(v) - if Positional(key) then 1 else 0
    ensures |f.slots| == f.maxIndex ==> |Put(f, key, v).value.slots| == Put(f, key, v).value.maxIndex
  {
    if Positional(key) {
      PlaceNodes(f.slots, key.n, v);
    } else {
      NodesNamedNext(f.named, key.s, v);
    }
  }

  lemma {:induction false} WalkSize(h: Heap, es: seq<Entry>, depth: nat, visiting: set<Ref>, items: nat, f: Filling)
    requires LuaTables(h) && UniqueKeys(es) && FreeIn(es, f) && Walk(h, es, depth, visiting, items, f).0.Ok?
    ensures var (g, n) := Walk(h, es, depth, visiting, items, f);
            && Weight(g.value) == Weight(f) + (n - items) + PaddingAll(h, es, depth) - PositionalCount(es)
            && (|f.slots| == f.maxIndex ==> |g.value.slots| == g.value.maxIndex)
    decreases if depth > MAX_DEPTH then 0 else MAX_DEPTH + 1 - depth, 2, |es|
  {
    if es != [] {
      var (j, n) := ToJson(h, es[0].item, depth, visiting, items);
      SizeFrom(h, es[0].item, depth, visiting, items);
      FreeStep(es, f, j.value);
      PutWeight(f, es[0].key, j.value);
      WalkSize(h, es[1..], depth, visiting, n, Put(f, es[0].key, j.value).value);
    }
  }

  lemma {:induction false} AllPositional(es: seq<Entry>)
    requires forall i :: 0 <= i < |es| ==> Positional(es[i].key)
    ensures PositionalCount(es) == |es|
  {
    if es != [] {
      AllPositional(es[1..]);
    }
  }

  lemma {:induction false} NonePositional(es: seq<Entry>)
    requires forall i :: 0 <= i < |es| ==> !Positional(es[i].key)
    ensures PositionalCount(es) == 0
  {
    if es != [] {
      NonePositional(es[1..]);
    }
  }

  lemma {:induction false} WalkNames(h: Heap, es: seq<Entry>, depth: nat, visiting: set<Ref>, items: nat, f: Filling)
    requires Walk(h, es, depth, visiting, items, f).0.Ok? && forall i :: 0 <= i < |es| ==> Positional(es[i].key)
    ensures Walk(h, es, depth, visiting, items, f).0.value.named == f.named
    decreases |es|
  {
    if es != [] {
      var (j, n) := ToJson(h, es[0].item, depth, visiting, items);
      WalkNames(h, es[1..], depth, visiting, n, Put(f, es[0].key, j.value).value);
    }
  }

  lemma {:induction false} SizeFrom(h: Heap, v: LValue, depth: nat, visiting: set<Ref>, items: nat)
    requires LuaTables(h) && ToJson(h, v, depth, visiting, items).0.Ok?
    ensures var (j, n) := ToJson(h, v, depth, visiting, items);
            Nodes(j.value) == (n - items) + Padding(h, v, depth)
    decreases if depth > MAX_DEPTH then 0 else MAX_DEPTH + 1 - depth, 1, 0
  {
    if v.LTable? {
      var es, inside := h[v.ref].entries, visiting + {v.ref};
      var g := Walk(h, es, depth + 1, inside, items + 1, FRESH).0.value;
      WalkSize(h, es, depth + 1, inside, items + 1, FRESH);
      WalkKeys(h, es, depth + 1, inside, items + 1, FRESH);
      if g.arrayOnly && g.maxIndex == h[v.ref].len {
        AllPositional(es);
        WalkNames(h, es, depth + 1, inside, items + 1, FRESH);
      } else {
        NonePositional(es);
      }
    }
  }

  /** The budget counts the values met, not the result: a conversion that succeeds counts at most 10001 items, and
      its result has exactly as many nodes as it counted and as its tables are padded. It exceeds the 10001 exactly
      when the padding makes up for it. */
  lemma SizeExactly(h: Heap, v: LValue)
    requires LuaTables(h) && ToJson(h, v, 0, {}, 0).0.Ok?
    ensures var (j, n) := ToJson(h, v, 0, {}, 0);
            && n <= 10001 && Nodes(j.value) == n + Padding(h, v, 0)
            && (Nodes(j.value) > 10001 <==> Padding(h, v, 0) > 10001 - n)
  {
    SizeFrom(h, v, 0, {}, 0);
    CountedWithin(h, v, 0, {}, 0);
  }

  lemma {:induction false} CountedWithin(h: Heap, v: LValue, depth: nat, visiting: set<Ref>, items: nat)
    requires ToJson(h, v, depth, visiting, items).0.Ok?
    ensures items < ToJson(h, v, depth, visiting, items).1 <= MAX_ITEMS + 1
    decreases if depth > MAX_DEPTH then 0 else MAX_DEPTH + 1 - depth, 1, 0
  {
    if v.LTable? {
      WalkCountedWithin(h, h[v.ref].entries, depth + 1, visiting + {v.ref}, items + 1, FRESH);
    }
  }

  lemma {:induction false} WalkCountedWithin(h: Heap, es: seq<Entry>, depth: nat, visiting: set<Ref>, items: nat,
                                             f: Filling)
    requires Walk(h, es, depth, visiting, items, f).0.Ok? && items <= MAX_ITEMS + 1
    ensures items <= Walk(h, es, depth, visiting, items, f).1 <= MAX_ITEMS + 1
    decreases if depth > MAX_DEPTH then 0 else MAX_DEPTH + 1 - depth, 2, |es|
  {
    if es != [] {
      var (j, n) := ToJson(h, es[0].item, depth, visiting, items);
      CountedWithin(h, es[0].item, depth, visiting, items);
      WalkCountedWithin(h, es[1..], depth, visiting, n, Put(f, es[0].key, j.value).value);
    }
  }

  /** A table with one entry at position `n`: two items are counted and `n + 1` nodes come out, for every `n`. */
  lemma SparseTable(n: nat)
    requires n >= 1
    ensures var h: Heap := map[0 := Table([Entry(IntKey(n), LBool(true))], n)];
            var (j, count) := ToJson(h, LTable(0), 0, {}, 0);
            j.Ok? && count == 2 && Nodes(j.value) == n + 1
  {
    var es := [Entry(IntKey(n), LBool(true))];
    var h: Heap := map[0 := Table(es, n)];
    var filled := Filling(Place([], n, Bool(true)), map[], true, n);
    assert es[1..] == [];
    assert ToJson(h, LBool(true), 1, {0}, 1) == (Ok(Bool(true)), 2);
    assert Put(FRESH, IntKey(n), Bool(true)) == Ok(filled);
    assert Walk(h, [], 1, {0}, 2, filled) == (Ok(filled), 2);
    assert Walk(h, es, 1, {0}, 1, FRESH) == (Ok(filled), 2);
    assert {} + {0} == {0};
    assert ToJson(h, LTable(0), 0, {}, 0).0.Ok? && ToJson(h, LTable(0), 0, {}, 0).1 == 2;
    SizeExactly(h, LTable(0));
    assert PaddingAll(h, es, 1) == Padding(h, LBool(true), 1) + PaddingAll(h, [], 1) == 0;
  }

  // ---------------------------------------------------------------- what a converted table holds

  /** The value converts to `j` at this depth, whatever had been counted before it. */
  ghost predicate Converts(h: Heap, v: LValue, depth: nat, visiting: set<Ref>, j: Json) {
    exists items :: ToJson(h, v, depth, visiting, items).0 == Ok(j)
  }

  ghost predicate HasKey(es: seq<Entry>, key: Key) { exists i :: 0 <= i < |es| && es[i].key == key }

  /** Every entry's conversion is where its key says. */
  ghost predicate Stored(h: Heap, es: seq<Entry>, depth: nat, visiting: set<Ref>, g: Filling) {
    forall i :: 0 <= i < |es| ==>
      && (Positional(es[i].key) ==>
            es[i].key.n <= |g.slots| && Converts(h, es[i].item, depth, visiting, g.slots[es[i].key.n - 1]))
      && (es[i].key.StrKey? ==>
            es[i].key.s in g.named && Converts(h, es[i].item, depth, visiting, g.named[es[i].key.s]))
  }

  /** Where no entry is, everything is as before; a position that was not there before is null. */
  ghost predicate Undisturbed(es: seq<Entry>, f: Filling, g: Filling) {
    && |g.slots| >= |f.slots|
    && (forall p :: 0 <= p < |g.slots| && !HasKey(es, IntKey(p + 1)) ==>
          g.slots[p] == if p < |f.slots| then f.slots[p] else Null)
    && (forall name :: !HasKey(es, StrKey(name)) ==>
          (name in g.named <==> name in f.named) && (name in f.named ==> g.named[name] == f.named[name]))
  }

  lemma HasKeyRest(es: seq<Entry>, key: Key)
    requires es != []
    ensures HasKey(es, key) <==> es[0].key == key || HasKey(es[1..], key)
  {
    if HasKey(es[1..], key) {
      var i :| 0 <= i < |es[1..]| && es[1..][i].key == key;
      assert es[i + 1].key == key;
    }
    if i :| 0 < i < |es| && es[i].key == key {
      assert es[1..][i - 1].key == key;
    }
  }

  lemma UndisturbedStep(es: seq<Entry>, f: Filling, v: Json, g: Filling)
    requires es != [] && Put(f, es[0].key, v).Ok? && Undisturbed(es[1..], Put(f, es[0].key, v).value, g)
    ensures Undisturbed(es, f, g)
  {
    forall key ensures HasKey(es, key) <==> es[0].key == key || HasKey(es[1..], key) {
      HasKeyRest(es, key);
    }
  }

  lemma UniqueRest(es: seq<Entry>)
    requires es != [] && UniqueKeys(es)
    ensures UniqueKeys(es[1..]) && !HasKey(es[1..], es[0].key)
  {
    assert forall i :: 0 <= i < |es[1..]| ==> es[1..][i] == es[i + 1];
  }

  lemma StoredStep(h: Heap, es: seq<Entry>, depth: nat, visiting: set<Ref>, f: Filling, v: Json, g: Filling)
    requires es != [] && Put(f, es[0].key, v).Ok? && !HasKey(es[1..], es[0].key)
    requires Converts(h, es[0].item, depth, visiting, v) && Stored(h, es[1..], depth, visiting, g)
    requires Undisturbed(es[1..], Put(f, es[0].key, v).value, g)
    ensures Stored(h, es, depth, visiting, g)
  {
    var put := Put(f, es[0].key, v).value;
    assert Positional(es[0].key) ==> g.slots[es[0].key.n - 1] == put.slots[es[0].key.n - 1] == v;
    assert es[0].key.StrKey? ==> g.named[es[0].key.s] == v;
    assert forall i :: 0 < i < |es| ==> es[i] == es[1..][i - 1];
  }

  lemma {:induction false} WalkStores(h: Heap, es: seq<Entry>, depth: nat, visiting: set<Ref>, items: nat, f: Filling)
    requires UniqueKeys(es) && Walk(h, es, depth, visiting, items, f).0.Ok?
    ensures var g := Walk(h, es, depth, visiting, items, f).0.value;
            Stored(h, es, depth, visiting, g) && Undisturbed(es, f, g)
    decreases |es|
  {
    if es != [] {
      var (j, n) := ToJson(h, es[0].item, depth, visiting, items);
      var put, g := Put(f, es[0].key, j.value).value, Walk(h, es, depth, visiting, items, f).0.value;
      UniqueRest(es);
      WalkStores(h, es[1..], depth, visiting, n, put);
      UndisturbedStep(es, f, j.value, g);
      assert Converts(h, es[0].item, depth, visiting, j.value);
      StoredStep(h, es, depth, visiting, f, j.value, g);
    }
  }

  /** The greatest position is one that some entry has. */
  lemma {:induction false} WalkGreatest(h: Heap, es: seq<Entry>, depth: nat, visiting: set<Ref>, items: nat, f: Filling)
    requires Walk(h, es, depth, visiting, items, f).0.Ok? && |f.slots| == f.maxIndex
    ensures var g := Walk(h, es, depth, visiting, items, f).0.value;
            |g.slots| == g.maxIndex >= f.maxIndex && (g.maxIndex > f.maxIndex ==> HasKey(es, IntKey(g.maxIndex)))
    decreases |es|
  {
    if es != [] {
      var (j, n) := ToJson(h, es[0].item, depth, visiting, items);
      var put, g := Put(f, es[0].key, j.value).value, Walk(h, es, depth, visiting, items, f).0.value;
      WalkGreatest(h, es[1..], depth, visiting, n, put);
      HasKeyRest(es, IntKey(g.maxIndex));
      if g.maxIndex == put.maxIndex && put.maxIndex > f.maxIndex {
        assert es[0].key == IntKey(g.maxIndex);
      }
    }
  }

  /** A list made of a table holds, at each position, what the entry there converts to, and a null where there is no
      entry; it is as long as the table, whose last position is taken. */
  ghost predicate ListOf(h: Heap, t: Table, depth: nat, visiting: set<Ref>, js: seq<Json>) {
    && |js| == t.len && (js != [] ==> HasKey(t.entries, IntKey(|js|)))
    && (forall i :: 0 <= i < |t.entries| ==>
          Positional(t.entries[i].key) && t.entries[i].key.n <= |js|
          && Converts(h, t.entries[i].item, depth, visiting, js[t.entries[i].key.n - 1]))
    && (forall p :: 0 <= p < |js| && !HasKey(t.entries, IntKey(p + 1)) ==> js[p].Null?)
  }

  /** An object made of a table holds, under each name, what the entry of that name converts to, and nothing else. */
  ghost predicate ObjectOf(h: Heap, t: Table, depth: nat, visiting: set<Ref>, fields: map<string, Json>) {
    && (forall i :: 0 <= i < |t.entries| ==>
          t.entries[i].key.StrKey? && t.entries[i].key.s in fields
          && Converts(h, t.entries[i].item, depth, visiting, fields[t.entries[i].key.s]))
    && (forall name :: name in fields ==> HasKey(t.entries, StrKey(name)))
  }

  /** Every table of every heap that converts is one of the two, whatever order its entries come in. */
  lemma TableContents(h: Heap, r: Ref, depth: nat, visiting: set<Ref>, items: nat)
    requires r in h && UniqueKeys(h[r].entries) && ToJson(h, LTable(r), depth, visiting, items).0.Ok?
    ensures var j := ToJson(h, LTable(r), depth, visiting, items).0.value;
            || (j.List? && ListOf(h, h[r], depth + 1, visiting + {r}, j.items))
            || (j.Object? && ObjectOf(h, h[r], depth + 1, visiting + {r}, j.fields))
  {
    var t, inside := h[r], visiting + {r};
    var j := ToJson(h, LTable(r), depth, visiting, items).0.value;
    var g := Walk(h, t.entries, depth + 1, inside, items + 1, FRESH).0.value;
    WalkKeys(h, t.entries, depth + 1, inside, items + 1, FRESH);
    WalkStores(h, t.entries, depth + 1, inside, items + 1, FRESH);
    WalkGreatest(h, t.entries, depth + 1, inside, items + 1, FRESH);
    if j.List? {
      assert j.items == g.slots;
    } else {
      assert j.fields == g.named && g.slots == [];
    }
  }

  /** A table that refers to itself is told to be cyclic. */
  lemma SelfReference()
    ensures ToJson(map[0 := Table([Entry(IntKey(1), LTable(0))], 1)], LTable(0), 0, {}, 0).0 == Err(CyclicTable)
  {
    var es := [Entry(IntKey(1), LTable(0))];
    var h: Heap := map[0 := Table(es, 1)];
    assert ToJson(h, LTable(0), 1, {} + {0}, 1) == (Err(CyclicTable), 2);
    assert Walk(h, es, 1, {} + {0}, 1, FRESH) == (Err(CyclicTable), 2);
  }

  // ---------------------------------------------------------------- what a table cannot hold

  /** `j` without the nulls inside its lists and objects: a Lua table stores no nil. */
  ghost function Prune(j: Json): (r: Json)
    ensures r.Null? <==> j.Null?
    decreases j, 1
  {
    match j
    case List(js) => List(PruneItems(js))
    case Object(fields) => Object(map name | name in fields && !fields[name].Null? :: Prune(fields[name]))
    case _ => j
  }

  ghost function PruneItems(js: seq<Json>): seq<Json>
    decreases js, 0
  {
    if js == [] then []
    else
      var n := |js| - 1;
      if js[n].Null? then PruneItems(js[..n]) else PruneItems(js[..n]) + [Prune(js[n])]
  }

  /** No null below the root. */
  ghost predicate NoNullInside(j: Json) {
    match j
    case List(js) => forall i :: 0 <= i < |js| ==> !js[i].Null? && NoNullInside(js[i])
    case Object(fields) => forall name :: name in fields ==> !fields[name].Null? && NoNullInside(fields[name])
    case _ => true
  }

  /** Every item left is the pruned form of an item that was there. */
  lemma {:induction false} PrunedFrom(js: seq<Json>, i: nat) returns (k: nat)
    requires i < |PruneItems(js)|
    ensures k < |js| && !js[k].Null? && PruneItems(js)[i] == Prune(js[k])
    decreases |js|
  {
    var n := |js| - 1;
    if !js[n].Null? && i == |PruneItems(js[..n])| {
      k := n;
    } else {
      k := PrunedFrom(js[..n], i);
    }
  }

  lemma {:induction false} PruneDepth(j: Json, levels: int)
    requires DepthWithin(j, levels)
    ensures DepthWithin(Prune(j), levels)
    decreases j
  {
    match j
    case List(js) =>
      forall i | 0 <= i < |PruneItems(js)| ensures DepthWithin(PruneItems(js)[i], levels - 1) {
        var k := PrunedFrom(js, i);
        PruneDepth(js[k], levels - 1);
      }
    case Object(fields) =>
      forall name | name in Prune(j).fields ensures DepthWithin(Prune(j).fields[name], levels - 1) {
        PruneDepth(fields[name], levels - 1);
      }
    case _ =>
  }

  lemma {:induction false} PrunedHasNoNull(j: Json)
    ensures NoNullInside(Prune(j))
    decreases j
  {
    match j
    case List(js) =>
      forall i | 0 <= i < |PruneItems(js)| ensures !PruneItems(js)[i].Null? && NoNullInside(PruneItems(js)[i]) {
        var k := PrunedFrom(js, i);
        PrunedHasNoNull(js[k]);
      }
    case Object(fields) =>
      forall name | name in Prune(j).fields ensures NoNullInside(Prune(j).fields[name]) {
        PrunedHasNoNull(fields[name]);
      }
    case _ =>
  }

  /** Pruning changes nothing exactly where there is nothing to prune. */
  lemma {:induction false} PruneIdentity(j: Json)
    ensures Prune(j) == j <==> NoNullInside(j)
    decreases j, 1
  {
    if NoNullInside(j) {
      match j
      case List(js) => PruneItemsIdentity(js);
      case Object(fields) =>
        forall name | name in fields ensures Prune(fields[name]) == fields[name] {
          PruneIdentity(fields[name]);
        }
        assert Prune(j).fields == fields;
      case _ =>
    } else if Prune(j) == j {
      PrunedHasNoNull(j);
    }
  }

  lemma {:induction false} PruneItemsIdentity(js: seq<Json>)
    requires forall i :: 0 <= i < |js| ==> !js[i].Null? && NoNullInside(js[i])
    ensures PruneItems(js) == js
    decreases js, 0
  {
    if js != [] {
      var n := |js| - 1;
      PruneItemsIdentity(js[..n]);
      PruneIdentity(js[n]);
      assert PruneItems(js) == js[..n] + [js[n]] == js;
    }
  }

  /** Reading empty tables as lists brings no null in. */
  lemma {:induction false} CanonicalKeepsNoNull(j: Json)
    requires NoNullInside(j)
    ensures NoNullInside(Canonical(j)) && (Canonical(j).Null? <==> j.Null?)
  {
    match j
    case List(js) =>
      forall i | 0 <= i < |js| ensures !CanonicalItems(js)[i].Null? && NoNullInside(CanonicalItems(js)[i]) {
        CanonicalAt(js, i);
        CanonicalKeepsNoNull(js[i]);
      }
    case Object(fields) =>
      forall name | name in fields ensures !Canonical(fields[name]).Null? && NoNullInside(Canonical(fields[name])) {
        CanonicalKeepsNoNull(fields[name]);
      }
    case _ =>
  }

  /** What comes back of `j` from `jsonToLua` followed by `luaToJSON`: nothing outside the limits, and
      otherwise `j` without its inner nulls and with empty lists in place of empty objects. */
  ghost function Returned(j: Json): Option<Json> {
    if DepthWithin(j, MAX_DEPTH) && Nodes(Prune(j)) <= MAX_ITEMS + 1 then Some(Canonical(Prune(j))) else None
  }

  /** `luaToJSON` undoes `jsonToLua` exactly on the values with no empty object and no inner null that are
      at most 32 levels deep and have at most 10001 nodes. */
  lemma RoundTrip(j: Json)
    ensures Returned(j) == Some(j) <==> DepthWithin(j, 32) && Nodes(j) <= 10001 && NoEmptyObject(j) && NoNullInside(j)
  {
    PruneIdentity(j);
    if Canonical(Prune(j)) == j {
      PrunedHasNoNull(j);
      CanonicalKeepsNoNull(Prune(j));
    }
    CanonicalIdentity(j);
  }

  /** The two ways a value within the limits fails to come back. */
  lemma NullDropped()
    ensures Returned(List([Null])) == Some(List([])) && Returned(Object(map["a" := Null])) == Some(List([]))
  {
    var js: seq<Json> := [Null];
    assert js[..0] == [] && PruneItems(js) == [];
    var fields: map<string, Json> := map["a" := Null];
    assert Prune(Object(fields)).fields == map[];
  }

  lemma EmptyObjectBecomesList()
    ensures Returned(Object(map[])) == Some(List([]))
  {
    var fields: map<string, Json> := map[];
    assert Prune(Object(fields)).fields == map[];
  }

  // ---------------------------------------------------------------- building table trees

  /** A tree stays a tree for `j` in any heap that agrees on the tables that may lie below. */
  lemma {:induction false} RepresentsFrame(h: Heap, k: Heap, v: LValue, j: Json, above: set<Ref>)
    requires Represents(h, v, j, above)
    requires forall r :: r in h && r !in above ==> r in k && k[r] == h[r]
    ensures Represents(k, v, j, above)
    decreases j, 1, 0
  {
    match j
    case List(js) => ItemsFrame(h, k, h[v.ref].entries, js, 1, above + {v.ref});
    case Object(fields) => FieldsFrame(h, k, h[v.ref].entries, j, fields, above + {v.ref});
    case _ =>
  }

  lemma {:induction false} ItemsFrame(h: Heap, k: Heap, es: seq<Entry>, js: seq<Json>, next: nat, above: set<Ref>)
    requires RepresentsItems(h, es, js, next, above)
    requires forall r :: r in h && r !in above ==> r in k && k[r] == h[r]
    ensures RepresentsItems(k, es, js, next, above)
    decreases js, 0, |js|
  {
    if js != [] {
      RepresentsFrame(h, k, es[0].item, js[0], above);
      ItemsFrame(h, k, es[1..], js[1..], next + 1, above);
    }
  }

  lemma {:induction false} FieldsFrame(h: Heap, k: Heap, es: seq<Entry>, whole: Json, fields: map<string, Json>,
                                       above: set<Ref>)
    requires whole.Object? && fields.Items <= whole.fields.Items && RepresentsFields(h, es, whole, fields, above)
    requires forall r :: r in h && r !in above ==> r in k && k[r] == h[r]
    ensures RepresentsFields(k, es, whole, fields, above)
    decreases whole, 0, |es|
  {
    if es != [] {
      var name := es[0].key.s;
      assert (name, fields[name]) in fields.Items;
      RepresentsFrame(h, k, es[0].item, fields[name], above);
      FieldsFrame(h, k, es[1..], whole, fields - {name}, above);
    }
  }

  lemma {:induction false} ItemsAppend(h: Heap, es: seq<Entry>, js: seq<Json>, next: nat, above: set<Ref>, v: LValue,
                                       j: Json)
    requires RepresentsItems(h, es, js, next, above) && !j.Null? && Represents(h, v, j, above)
    ensures RepresentsItems(h, es + [Entry(IntKey(next + |js|), v)], js + [j], next, above)
    decreases |js|
  {
    var es', js' := es + [Entry(IntKey(next + |js|), v)], js + [j];
    if js == [] {
      assert es'[1..] == [] && js'[1..] == [];
    } else {
      ItemsAppend(h, es[1..], js[1..], next + 1, above, v, j);
      assert es'[1..] == es[1..] + [Entry(IntKey(next + |js|), v)] && js'[1..] == js[1..] + [j];
    }
  }

  lemma {:induction false} FieldsAppend(h: Heap, es: seq<Entry>, whole: Json, done: map<string, Json>, above: set<Ref>,
                                        v: LValue, name: string)
    requires whole.Object? && done.Items <= whole.fields.Items && RepresentsFields(h, es, whole, done, above)
    requires name in whole.fields && name !in done && !whole.fields[name].Null?
             && Represents(h, v, whole.fields[name], above)
    requires done[name := whole.fields[name]].Items <= whole.fields.Items
    ensures RepresentsFields(h, es + [Entry(StrKey(name), v)], whole, done[name := whole.fields[name]], above)
    decreases |es|
  {
    var es', all := es + [Entry(StrKey(name), v)], done[name := whole.fields[name]];
    if es == [] {
      assert es'[1..] == [] && all - {name} == map[];
    } else {
      var first := es[0].key.s;
      var rest := done - {first};
      assert all - {first} == rest[name := whole.fields[name]];
      assert rest[name := whole.fields[name]].Items <= whole.fields.Items;
      FieldsAppend(h, es[1..], whole, rest, above, v, name);
      assert es'[1..] == es[1..] + [Entry(StrKey(name), v)];
    }
  }

  ghost predicate Extends(h: Heap, k: Heap) {
    forall r :: r in h ==> r in k && k[r] == h[r]
  }

  function Appended(t: Table, v: LValue): Table {
    if v.Nil? then t else Table(t.entries + [Entry(IntKey(t.len + 1), v)], t.len + 1)
  }

  /** One turn of the list loop: the converted item is appended, unless it is nil. */
  lemma ListGrows(before: Heap, built: Heap, now: Heap, table: Ref, kept: seq<Json>, v: LValue, j: Json,
                  inside: set<Ref>)
    requires table in before && before[table].len == |kept|
             && RepresentsItems(before, before[table].entries, kept, 1, inside)
    requires Extends(before, built) && Represents(built, v, Prune(j), inside) && table in inside
    requires now == built[table := Appended(built[table], v)]
    ensures var more := if j.Null? then kept else kept + [Prune(j)];
            now[table].len == |more| && RepresentsItems(now, now[table].entries, more, 1, inside)
  {
    ItemsFrame(before, now, before[table].entries, kept, 1, inside);
    if !j.Null? {
      RepresentsFrame(built, now, v, Prune(j), inside);
      ItemsAppend(now, before[table].entries, kept, 1, inside, v, Prune(j));
    }
  }

  /** One turn of the object loop, for a field that is not null. */
  lemma ObjectGrows(before: Heap, built: Heap, now: Heap, table: Ref, whole: Json, done: map<string, Json>, v: LValue,
                    name: string, inside: set<Ref>)
    requires table in before && whole.Object? && done.Items <= whole.fields.Items
    requires RepresentsFields(before, before[table].entries, whole, done, inside)
    requires name in whole.fields && name !in done && !whole.fields[name].Null?
    requires done[name := whole.fields[name]].Items <= whole.fields.Items
    requires Extends(before, built) && Represents(built, v, whole.fields[name], inside) && table in inside
    requires now == built[table := Table(built[table].entries + [Entry(StrKey(name), v)], built[table].len)]
    ensures RepresentsFields(now, now[table].entries, whole, done[name := whole.fields[name]], inside)
  {
    FieldsFrame(before, now, before[table].entries, whole, done, inside);
    RepresentsFrame(built, now, v, whole.fields[name], inside);
    FieldsAppend(now, before[table].entries, whole, done, inside, v, name);
  }

  /** The part of the Lua state `jsonToLua` uses. */
  class LuaState {
    var heap: Heap

    constructor ()
      ensures heap == map[]
    {
      heap := map[];
    }

    method NewTable() returns (r: Ref)
      modifies this
      ensures r !in old(heap) && heap == old(heap)[r := Table([], 0)]
    {
      r := FreshRef(heap.Keys);
      heap := heap[r := Table([], 0)];
    }

    /** `LTable.Append`; appending nil does nothing. */
    method Append(r: Ref, v: LValue)
      requires r in heap
      modifies this
      ensures heap == old(heap)[r := Appended(old(heap)[r], v)]
    {
      if !v.Nil? {
        heap := heap[r := Table(heap[r].entries + [Entry(IntKey(heap[r].len + 1), v)], heap[r].len + 1)];
      }
    }

    /** `LTable.RawSetString` of a name not set before; setting nil does nothing. */
    method RawSetString(r: Ref, name: string, v: LValue)
      requires r in heap
      modifies this
      ensures var t := old(heap)[r];
              heap == if v.Nil? then old(heap) else old(heap)[r := Table(t.entries + [Entry(StrKey(name), v)], t.len)]
    {
      if !v.Nil? {
        heap := heap[r := Table(heap[r].entries + [Entry(StrKey(name), v)], heap[r].len)];
      }
    }

    method JsonToLua(j: Json, depth: nat, ghost above: set<Ref>) returns (r: Result<LValue, Error>)
      requires above <= heap.Keys
      modifies this
      ensures r.Ok? <==> DepthWithin(j, MAX_DEPTH - depth)
      ensures Extends(old(heap), heap)
      ensures r.Ok? ==> Represents(heap, r.value, Prune(j), above)
      decreases j, 1
    {
      if depth > MAX_DEPTH {
        return Err(ValueLimit);
      }
      match j {
        case Null => return Ok(Nil);
        case Bool(b) => return Ok(LBool(b));
        case Text(s) => return Ok(LString(s));
        case Number(n) => return Ok(LNumber(n));
        case List(js) => r := ListToLua(js, depth, above);
        case Object(fields) => r := ObjectToLua(j, depth, above);
      }
    }

    method ListToLua(js: seq<Json>, depth: nat, ghost above: set<Ref>) returns (r: Result<LValue, Error>)
      requires above <= heap.Keys && depth <= MAX_DEPTH
      modifies this
      ensures r.Ok? <==> DepthWithin(List(js), MAX_DEPTH - depth)
      ensures Extends(old(heap), heap)
      ensures r.Ok? ==> Represents(heap, r.value, Prune(List(js)), above)
      decreases js, 0
    {
      var table := NewTable();
      ghost var inside := above + {table};
      for i := 0 to |js|
        invariant table in heap && table !in old(heap) && Extends(old(heap), heap)
        invariant forall k :: 0 <= k < i ==> DepthWithin(js[k], MAX_DEPTH - depth - 1)
        invariant heap[table].len == |PruneItems(js[..i])|
        invariant RepresentsItems(heap, heap[table].entries, PruneItems(js[..i]), 1, inside)
      {
        ghost var before := heap;
        var item := JsonToLua(js[i], depth + 1, inside);
        if item.Err? {
          return Err(item.error);
        }
        ghost var built := heap;
        Append(table, item.value);
        assert js[..i + 1][..i] == js[..i];
        ListGrows(before, built, heap, table, PruneItems(js[..i]), item.value, js[i], inside);
      }
      assert js[..|js|] == js;
      return Ok(LTable(table));
    }

    method ObjectToLua(j: Json, depth: nat, ghost above: set<Ref>) returns (r: Result<LValue, Error>)
      requires j.Object? && above <= heap.Keys && depth <= MAX_DEPTH
      modifies this
      ensures r.Ok? <==> DepthWithin(j, MAX_DEPTH - depth)
      ensures Extends(old(heap), heap)
      ensures r.Ok? ==> Represents(heap, r.value, Prune(j), above)
      decreases j, 0
    {
      var fields := j.fields;
      var table := NewTable();
      ghost var inside := above + {table};
      var left := fields.Keys;
      ghost var pruned := Prune(j);
      ghost var done: map<string, Json> := map[];
      while left != {}
        invariant left <= fields.Keys && done.Items <= pruned.fields.Items
        invariant done.Keys == pruned.fields.Keys - left
        invariant table in heap && table !in old(heap) && Extends(old(heap), heap)
        invariant forall name :: name in fields && name !in left ==> DepthWithin(fields[name], MAX_DEPTH - depth - 1)
        invariant heap[table].len == 0 && RepresentsFields(heap, heap[table].entries, pruned, done, inside)
        decreases left
      {
        var name :| name in left;
        ghost var before := heap;
        var item := JsonToLua(fields[name], depth + 1, inside);
        if item.Err? {
          return Err(item.error);
        }
        ghost var built := heap;
        RawSetString(table, name, item.value);
        if fields[name].Null? {
          FieldsFrame(before, heap, before[table].entries, pruned, done, inside);
        } else {
          GrowItems(done, pruned.fields, name);
          ObjectGrows(before, built, heap, table, pruned, done, item.value, name, inside);
          done := done[name := pruned.fields[name]];
        }
        left := left - {name};
      }
      assert done == pruned.fields by { SameItems(done, pruned.fields); }
      return Ok(LTable(table));
    }
  }

  lemma GrowItems(done: map<string, Json>, fields: map<string, Json>, name: string)
    requires done.Items <= fields.Items && name in fields
    ensures done[name := fields[name]].Items <= fields.Items
  {
  }

  lemma SameItems(done: map<string, Json>, fields: map<string, Json>)
    requires done.Items <= fields.Items && done.Keys == fields.Keys
    ensures done == fields
  {
    forall name | name in done ensures done[name] == fields[name] {
      assert (name, done[name]) in done.Items;
    }
  }

  /** A reference above every one in use. */
  method FreshRef(used: set<Ref>) returns (r: Ref)
    ensures forall x :: x in used ==> x < r
  {
    r := 0;
    var left := used;
    while left != {}
      invariant forall x :: x in used ==> x in left || x < r
      decreases left
    {
      var x :| x in left;
      r := if x < r then r else x + 1;
      left := left - {x};
    }
  }

  // ---------------------------------------------------------------- the walk as it runs

  /** One conversion: the `visiting` map and the shared `items` counter of `luaToJSON`. */
  class Conversion {
    var visiting: set<Ref>
    var items: nat

    constructor ()
      ensures visiting == {} && items == 0
    {
      visiting, items := {}, 0;
    }

    method LuaToJson(h: Heap, v: LValue, depth: nat) returns (r: Result<Json, Error>)
      modifies this
      ensures (r, items) == ToJson(h, v, depth, old(visiting), old(items))
      ensures visiting == old(visiting)
      decreases if depth > MAX_DEPTH then 0 else MAX_DEPTH + 1 - depth
    {
      if depth > MAX_DEPTH || items > MAX_ITEMS {
        return Err(ValueLimit);
      }
      items := items + 1;
      match v {
        case Nil => return Ok(Null);
        case LBool(b) => return Ok(Bool(b));
        case LString(s) => return Ok(Text(s));
        case LNumber(n) => return Ok(Number(n));
        case LOther => return Err(Unsupported);
        case LTable(ref) =>
          if ref !in h {
            return Err(Unsupported);
          }
          if ref in visiting {
            return Err(CyclicTable);
          }
          visiting := visiting + {ref};
          var entries := h[ref].entries;
          var slots: seq<Json>, named: map<string, Json>, arrayOnly, maxIndex: nat := [], map[], true, 0;
          var failure: Option<Error> := None;
          ghost var start := items;
          for i := 0 to |entries|
            invariant visiting == old(visiting) + {ref}
            invariant Walk(h, entries, depth + 1, visiting, start, FRESH) ==
                      if failure.Some? then (Err(failure.value), items)
                      else Walk(h, entries[i..], depth + 1, visiting, items, Filling(slots, named, arrayOnly, maxIndex))
          {
            if failure.None? {
              var key := entries[i].key;
              var converted := LuaToJson(h, entries[i].item, depth + 1);
              if converted.Err? {
                failure := Some(converted.error);
              } else if key.IntKey? && key.n >= 1 {
                maxIndex := if maxIndex > key.n then maxIndex else key.n;
                slots := PlaceAt(slots, key.n, converted.value);
              } else {
                arrayOnly := false;
                if key.StrKey? {
                  named := named[key.s := converted.value];
                } else {
                  failure := Some(ObjectKey);
                }
              }
            }
          }
          visiting := visiting - {ref};
          if failure.Some? {
            return Err(failure.value);
          }
          if arrayOnly && maxIndex == h[ref].len {
            return Ok(List(slots));
          }
          if |slots| > 0 {
            return Err(MixedTable);
          }
          return Ok(Object(named));
      }
    }
  }

  method PlaceAt(slots: seq<Json>, index: nat, value: Json) returns (r: seq<Json>)
    requires index >= 1
    ensures r == Place(slots, index, value)
  {
    r := slots;
    while |r| < index
      invariant |slots| <= |r| && (|r| > |slots| ==> |r| <= index)
      invariant r == slots + seq(|r| - |slots|, _ => Null)
    {
      r := r + [Null];
    }
    r := r[index - 1 := value];
  }

  /** Both conversions, one after the other, on a fresh state: for every value, exactly what `Returned` says. */
  method ThereAndBack(j: Json) returns (r: Result<Json, Error>)
    ensures if Returned(j).Some? then r == Ok(Returned(j).value) else r.Err?
  {
    var state := new LuaState();
    var v := state.JsonToLua(j, 0, {});
    if v.Err? {
      return Err(v.error);
    }
    PruneDepth(j, MAX_DEPTH);
    ConvertRepresented(state.heap, v.value, Prune(j), 0, {}, 0);
    var conversion := new Conversion();
    r := conversion.LuaToJson(state.heap, v.value, 0);
  }
}
