/**
 * The rest of `PrototypeExporter`: the objects and statuses it imports, the
 * ids it hands out once every object has been looked up, the render names
 * it declares as types, and the text it writes for a parameter.
 */
module PrototypeExport {
  import opened Wrappers
  import opened Text
  import opened Values
  import opened Cells
  import opened Groups
  import opened Exporting
  import Prototypes
  import Scenes
  import Channels

  // ----- Filter: the cells that receive ids -----

  /** The cells reached more than once, with the ids they drew. */
  function Used(search: map<CellId, Counter>): map<CellId, int>
  {
    map c | c in search && search[c].usage > 0 :: search[c].id
  }

  /**
   * `Filter`: every cell reached more than once is added to `dict` with its
   * id. `Dictionary.Add` throws on a cell the dictionary holds already.
   */
  method Filter(search: map<CellId, Counter>, dict: map<CellId, int>) returns (r: Result<map<CellId, int>>)
    ensures r.Ok? <==> Used(search).Keys !! dict.Keys
    ensures r.Ok? ==> r.value == dict + Used(search)
    ensures r.Fail? ==> r.fault == Argument
  {
    var m := dict;
    var left := search.Keys;
    ghost var done: map<CellId, Counter> := map[];
    while left != {}
      invariant left <= search.Keys && done.Keys == search.Keys - left
      invariant forall c :: c in done ==> done[c] == search[c]
      invariant m == dict + Used(done) && Used(done).Keys !! dict.Keys
      decreases left
    {
      var c :| c in left;
      UsedAdd(done, c, search[c]);
      if search[c].usage > 0 {
        if c in m {
          UsedHas(search, c);
          return Fail(Argument);
        }
        MergeAdd(dict, Used(done), c, search[c].id);
        m := m[c := search[c].id];
      }
      done := done[c := search[c]];
      left := left - {c};
    }
    assert done == search;
    r := Ok(m);
  }

  /** Recording one more cell adds it to the used cells when it was reached again. */
  lemma UsedAdd(s: map<CellId, Counter>, c: CellId, x: Counter)
    requires c !in s
    ensures Used(s[c := x]) == if x.usage > 0 then Used(s)[c := x.id] else Used(s)
  {
  }

  lemma MergeAdd(dict: map<CellId, int>, u: map<CellId, int>, c: CellId, id: int)
    ensures (dict + u)[c := id] == dict + u[c := id]
  {
  }

  lemma UsedHas(s: map<CellId, Counter>, c: CellId)
    requires c in s && s[c].usage > 0
    ensures c in Used(s)
  {
  }

  /** No two cells of `m` share an id. */
  ghost predicate DistinctIds(m: map<CellId, int>)
  {
    forall c, c' :: c in m && c' in m && c != c' ==> m[c] != m[c']
  }

  /**
   * The ids `Filter` hands out keep apart: from one another, from every
   * group's, and all below the counter.
   */
  lemma UsedIds(search: map<CellId, Counter>, d: Dict)
    requires Numbered(search, d)
    ensures DistinctIds(Used(search))
    ensures forall c, g :: c in Used(search) && g in d.groups ==> Used(search)[c] != d.groups[g]
    ensures forall c :: c in Used(search) ==> 0 <= Used(search)[c] < d.counter
  {
    var u := Used(search);
    forall c, c' | c in u && c' in u && c != c'
      ensures u[c] != u[c']
    {
      assert search[c].id != search[c'].id;
    }
    forall c, g | c in u && g in d.groups
      ensures u[c] != d.groups[g]
    {
      assert search[c].id != d.groups[g];
    }
  }

  // ----- FindTypes: every render name once -----

  /** The render names of a flat tree in pre-order: its own, then each child's. */
  function Preorder(f: Prototypes.Flat): seq<Option<string>>
    decreases f, 1
  {
    [f.renderName] + ChildPreorder(f.container, |f.container|)
  }

  function ChildPreorder(cs: seq<Prototypes.Flat>, k: nat): seq<Option<string>>
    requires k <= |cs|
    decreases cs, 0, k
  {
    if k == 0 then [] else ChildPreorder(cs, k - 1) + Preorder(cs[k - 1])
  }

  /** `types` extended by each element of `xs` it does not hold yet, in turn. */
  function AddNew<T(==)>(types: seq<T>, xs: seq<T>): seq<T>
    decreases |xs|
  {
    if |xs| == 0 then types else AddNew(if xs[0] in types then types else types + [xs[0]], xs[1..])
  }

  /** Adding `a + b` is adding `a`, then `b`. */
  lemma {:induction false} AddNewAppend<T>(types: seq<T>, a: seq<T>, b: seq<T>)
    ensures AddNew(types, a + b) == AddNew(AddNew(types, a), b)
    decreases |a|
  {
    if |a| > 0 {
      assert (a + b)[0] == a[0] && (a + b)[1..] == a[1..] + b;
      AddNewAppend(if a[0] in types then types else types + [a[0]], a[1..], b);
    } else {
      assert a + b == b;
    }
  }

  /** No element occurs twice. */
  predicate NoDup<T(==)>(s: seq<T>)
  {
    forall i, j :: 0 <= i < j < |s| ==> s[i] != s[j]
  }

  /**
   * What adding keeps and what it adds: `types` stays in front, nothing
   * occurs twice, and exactly the elements of `types` and `xs` occur.
   */
  lemma {:induction false} AddNewMeaning<T>(types: seq<T>, xs: seq<T>)
    requires NoDup(types)
    ensures var r := AddNew(types, xs);
      && |types| <= |r| && r[..|types|] == types && NoDup(r)
      && forall x :: x in r <==> x in types || x in xs
    decreases |xs|
  {
    if |xs| > 0 {
      var t := if xs[0] in types then types else types + [xs[0]];
      AddNewMeaning(t, xs[1..]);
      var r := AddNew(t, xs[1..]);
      assert r[..|types|] == t[..|types|] == types;
      assert xs == [xs[0]] + xs[1..];
      forall x
        ensures x in r <==> x in types || x in xs
      {
        assert x in t <==> x in types || x == xs[0];
      }
    }
  }

  /** The first index of `x` in `xs`. */
  function First<T(==)>(xs: seq<T>, x: T): (k: nat)
    requires x in xs
    ensures k < |xs| && xs[k] == x && x !in xs[..k]
  {
    if xs[0] == x then 0 else
      assert x in xs[1..] by { assert xs == [xs[0]] + xs[1..]; }
      var k := 1 + First(xs[1..], x);
      assert xs[..k] == [xs[0]] + xs[1..][..k - 1];
      k
  }

  /** Adding orders the new elements by their first occurrence in `xs`. */
  lemma {:induction false} AddNewOrder<T>(types: seq<T>, xs: seq<T>, i: nat, j: nat)
    requires NoDup(types)
    requires |types| <= i < j < |AddNew(types, xs)|
    ensures AddNew(types, xs)[i] in xs && AddNew(types, xs)[j] in xs
    ensures First(xs, AddNew(types, xs)[i]) < First(xs, AddNew(types, xs)[j])
    decreases |xs|
  {
    var r := AddNew(types, xs);
    AddNewMeaning(types, xs);
    NewPast(types, r, i);
    NewPast(types, r, j);
    assert r[i] in r && r[j] in r;
    assert |xs| > 0;
    var t := if xs[0] in types then types else types + [xs[0]];
    assert r == AddNew(t, xs[1..]);
    AddNewMeaning(t, xs[1..]);
    if xs[0] in types {
      AddNewOrder(t, xs[1..], i, j);
      FirstTail(xs, r[i]);
      FirstTail(xs, r[j]);
    } else if i == |types| {
      PrefixAt(r, t, i);
      assert r[i] == xs[0];
      assert NoDup(r) && i < j;
      assert r[i] != r[j];
      assert r[j] != xs[0];
      assert r[j] in xs;
      FirstTail(xs, r[j]);
    } else {
      NewPast(t, r, i);
      NewPast(t, r, j);
      AddNewOrder(t, xs[1..], i, j);
      FirstTail(xs, r[i]);
      FirstTail(xs, r[j]);
    }
  }

  lemma PrefixAt<T>(r: seq<T>, t: seq<T>, k: nat)
    requires |t| <= |r| && r[..|t|] == t && k < |t|
    ensures r[k] == t[k]
  {
    assert r[k] == r[..|t|][k];
  }

  /** Past a prefix without repeats, in a sequence without repeats, no element of the prefix occurs. */
  lemma NewPast<T>(t: seq<T>, r: seq<T>, k: nat)
    requires |t| <= k < |r| && r[..|t|] == t && NoDup(r)
    ensures r[k] !in t
  {
    forall m | 0 <= m < |t|
      ensures t[m] != r[k]
    {
      PrefixAt(r, t, m);
    }
  }

  /** Past the head, the first index is one more than in the tail. */
  lemma FirstTail<T>(xs: seq<T>, x: T)
    requires |xs| > 0 && x in xs && x != xs[0]
    ensures x in xs[1..] && First(xs, x) == 1 + First(xs[1..], x)
  {
  }

  /**
   * `FindTypes`: the render name of `f` when `types` lacks it, then the
   * render names of each child's tree.
   */
  method FindTypes(f: Prototypes.Flat, types: seq<Option<string>>) returns (r: seq<Option<string>>)
    ensures r == AddNew(types, Preorder(f))
    decreases f
  {
    r := types;
    if f.renderName !in r {
      r := r + [f.renderName];
    }
    var i := 0;
    while i < |f.container|
      invariant 0 <= i <= |f.container|
      invariant r == AddNew(types, [f.renderName] + ChildPreorder(f.container, i))
    {
      r := FindTypes(f.container[i], r);
      AddNewAppend(types, [f.renderName] + ChildPreorder(f.container, i), Preorder(f.container[i]));
      assert [f.renderName] + ChildPreorder(f.container, i + 1)
          == ([f.renderName] + ChildPreorder(f.container, i)) + Preorder(f.container[i]);
      i := i + 1;
    }
  }

  // ----- GetParamValue: the text of a parameter -----

  /** `v.Value?.ToString()`: null for a null value, the text otherwise, and what the read throws. */
  function ValueText(x: Result<Val>): Result<Option<string>>
  {
    match x
    case Fail(f) => Fail(f)
    case Ok(v) =>
      if v == VNull then Ok(None)
      else match ValText(v)
        case Fail(f) => Fail(f)
        case Ok(s) => Ok(Some(s))
  }

  /** The reference text `"#" + id`. */
  function RefText(id: int): string
  {
    "#" + IntText(id)
  }

  /**
   * `GetParamValue(v, dict, enableDirect)`: with direct referencing, `v`'s
   * own id as `"#id"`; without it, the id of `v`'s remote source; else a
   * system value's `"$name"`; else the text of `v`'s value, or null.
   */
  ghost function ParamValue(cells: seq<Cell>, rank: seq<nat>, v: CellId, d: Dict, enableDirect: bool)
    : (r: Result<Option<string>>)
    requires Ranked(cells, rank) && v < |cells|
  {
    var src := Remote(cells[v]);
    if !enableDirect && src.Some? && src.value in d.valueWrapper then Ok(Some(RefText(d.valueWrapper[src.value])))
    else if enableDirect && v in d.valueWrapper then Ok(Some(RefText(d.valueWrapper[v])))
    else if v in d.systemValues then Ok(Some("$" + d.systemValues[v]))
    else ValueText(Eval(cells, rank, v))
  }

  /**
   * With direct referencing, a cell that has an id is written as `"#id"`,
   * and when no two cells share an id, reading the number back names
   * that cell and no other.
   */
  lemma ParamValueReference(cells: seq<Cell>, rank: seq<nat>, v: CellId, d: Dict, c: CellId)
    requires Ranked(cells, rank) && v < |cells| && v in d.valueWrapper
    requires DistinctIds(d.valueWrapper) && c in d.valueWrapper
    ensures ParamValue(cells, rank, v, d, true) == Ok(Some(RefText(d.valueWrapper[v])))
    ensures ParseSigned(RefText(d.valueWrapper[v])[1..]) == Some(d.valueWrapper[c]) <==> c == v
  {
    assert RefText(d.valueWrapper[v])[1..] == IntText(d.valueWrapper[v]);
    ParseSignedText(d.valueWrapper[v]);
  }

  /**
   * Without direct referencing, the cell's own id is never written: the
   * text is the same whether or not the dictionary holds the cell.
   */
  lemma ParamValueOwnIdUnused(cells: seq<Cell>, rank: seq<nat>, v: CellId, d: Dict)
    requires Ranked(cells, rank) && Chained(cells, rank) && v < |cells|
    ensures ParamValue(cells, rank, v, d, false)
         == ParamValue(cells, rank, v, d.(valueWrapper := d.valueWrapper - {v}), false)
  {
    if Remote(cells[v]).Some? {
      RemoteRank(cells, rank, v);
    }
  }

  /** Every cell name of the system values is another: the loader's dictionary of system values, inverted. */
  ghost predicate DistinctNames(systemValues: map<CellId, string>)
  {
    forall c, c' :: c in systemValues && c' in systemValues && c != c' ==> systemValues[c] != systemValues[c']
  }

  /**
   * A system value without an id of its own is written as `"$name"`, and
   * the name leads back to that cell and no other.
   */
  lemma ParamValueSystem(cells: seq<Cell>, rank: seq<nat>, v: CellId, d: Dict, enableDirect: bool, c: CellId)
    requires Ranked(cells, rank) && v < |cells| && v in d.systemValues
    requires DistinctNames(d.systemValues) && c in d.systemValues
    requires enableDirect ==> v !in d.valueWrapper
    requires !enableDirect ==> Remote(cells[v]).None? || Remote(cells[v]).value !in d.valueWrapper
    ensures ParamValue(cells, rank, v, d, enableDirect) == Ok(Some("$" + d.systemValues[v]))
    ensures ("$" + d.systemValues[v])[1..] == d.systemValues[c] <==> c == v
  {
    assert ("$" + d.systemValues[v])[1..] == d.systemValues[v];
  }

  /**
   * A cell with no reference to write and no system name is written as
   * its value's text: null for a null value, an exception when the read or
   * the text throws.
   */
  lemma ParamValueText(cells: seq<Cell>, rank: seq<nat>, v: CellId, d: Dict, enableDirect: bool)
    requires Ranked(cells, rank) && v < |cells| && v !in d.systemValues
    requires enableDirect ==> v !in d.valueWrapper
    requires !enableDirect ==> Remote(cells[v]).None? || Remote(cells[v]).value !in d.valueWrapper
    ensures var r := ParamValue(cells, rank, v, d, enableDirect);
      && (r == Ok(None) <==> Eval(cells, rank, v) == Ok(VNull))
      && (r.Fail? <==> Eval(cells, rank, v).Fail? || (Eval(cells, rank, v) != Ok(VNull) && ValText(Eval(cells, rank, v).value).Fail?))
      && (r.Ok? && r.value.Some? ==> ValText(Eval(cells, rank, v).value) == Ok(r.value.value))
  {
  }

  // ----- The lookup of ExportObjects -----

  /**
   * The lookup `ExportObjects` runs before it writes anything: `CreateLookup`
   * on each object in turn, sharing one search table and one dictionary,
   * then `Filter` into the dictionary's cell ids.
   */
  ghost function ExportDict(cells: seq<Cell>, rank: seq<nat>, vis: seq<seq<CellId>>, objects: seq<Prototypes.Flat>,
                            plans: seq<Plan>, systemValues: map<CellId, string>): Result<Dict>
  {
    var x := Run(cells, rank, ChildSteps(vis, objects, plans, |objects|), map[], NewDict(systemValues));
    if x.Fail? then Fail(x.fault) else FilterInto(x.value.0, x.value.1)
  }

  /** What `Filter(search, d.ValueWrapper)` leaves in `d`. */
  function FilterInto(search: map<CellId, Counter>, d: Dict): Result<Dict>
  {
    if Used(search).Keys !! d.valueWrapper.Keys then Ok(d.(valueWrapper := d.valueWrapper + Used(search)))
    else Fail(Argument)
  }

  /** Filtering into a dictionary with no cell ids never throws, and the cell ids are then exactly the used cells. */
  lemma FilterIntoEmpty(search: map<CellId, Counter>, d: Dict)
    requires d.valueWrapper == map[]
    ensures FilterInto(search, d) == Ok(d.(valueWrapper := Used(search)))
  {
    assert d.valueWrapper + Used(search) == Used(search);
  }

  lemma EmptyUnion<T>(s: set<T>)
    ensures {} + s == s
  {
  }

  /** All objects as the children of one flat with nothing of its own. */
  function Whole(objects: seq<Prototypes.Flat>): Prototypes.Flat
  {
    Prototypes.Flat(objects, [], map[], None, None)
  }

  /** Looking up that flat is looking up each object in turn, and it lies in the store when they do. */
  lemma WholeSteps(cells: seq<Cell>, vis: seq<seq<CellId>>, objects: seq<Prototypes.Flat>, plans: seq<Plan>)
    requires |plans| == |objects| && ChildrenIn(cells, vis, objects, plans, |objects|)
    ensures TreeSteps(vis, Whole(objects), Plan(plans, [], [])) == ChildSteps(vis, objects, plans, |objects|)
    ensures TreeIn(cells, vis, Whole(objects), Plan(plans, [], []))
    ensures LookupOrder(Whole(objects)) == ChildOrder(objects, |objects|)
    ensures TreeClean(cells, vis, Whole(objects)) <==> ChildrenClean(cells, vis, objects, |objects|)
  {
    var w := Whole(objects);
    assert OwnSteps(vis, w, []) == [];
    forall i | 0 <= i < |objects|
      ensures TreeIn(cells, vis, objects[i], plans[i])
    {
      ChildrenInPrefix(cells, vis, objects, plans, |objects|, i);
    }
    assert KeyOrder([], w.parameter);
    assert CleanList(cells, AnimCells(vis, []));
  }

  /** `TreeIn` for every one of the first `k` children is `ChildrenIn`. */
  lemma {:induction false} ChildrenInAll(cells: seq<Cell>, vis: seq<seq<CellId>>, cs: seq<Prototypes.Flat>,
                                         plans: seq<Plan>, k: nat)
    requires k <= |cs| && k <= |plans| && forall j :: 0 <= j < k ==> TreeIn(cells, vis, cs[j], plans[j])
    ensures ChildrenIn(cells, vis, cs, plans, k)
  {
    if k > 0 {
      ChildrenInAll(cells, vis, cs, plans, k - 1);
    }
  }

  /**
   * The export's lookup fails exactly when a group is numbered twice (two
   * objects, or one object, holding it twice) or an object leads to a cell
   * named "Math" that is no math value; `Filter` itself never throws here,
   * since the dictionary holds no cell id before it.
   */
  lemma ExportFails(cells: seq<Cell>, rank: seq<nat>, vis: seq<seq<CellId>>, objects: seq<Prototypes.Flat>,
                    plans: seq<Plan>, systemValues: map<CellId, string>)
    requires Ranked(cells, rank) && Chained(cells, rank) && VisIn(vis, |cells|)
    requires |plans| == |objects| && ChildrenIn(cells, vis, objects, plans, |objects|)
    ensures ExportDict(cells, rank, vis, objects, plans, systemValues).Ok? <==>
      Exporting.Fresh({}, ChildOrder(objects, |objects|)) && ChildrenClean(cells, vis, objects, |objects|)
  {
    var d0 := NewDict(systemValues);
    var x := Run(cells, rank, ChildSteps(vis, objects, plans, |objects|), map[], d0);
    WholeSteps(cells, vis, objects, plans);
    LookupFails(cells, rank, vis, Whole(objects), Plan(plans, [], []), map[], d0);
    ExportRun(cells, rank, vis, objects, plans, systemValues);
    assert d0.groups.Keys == {};
    if x.Ok? {
      assert x.value.1.valueWrapper.Keys == {};
    }
  }

  /**
   * After a successful export lookup, no two cells, no two groups and no
   * cell and group share an id; every group of every object has an id, so
   * writing the objects' animations finds each; the system values are
   * kept; and the cell ids are those of the cells reached more than once.
   */
  lemma ExportIds(cells: seq<Cell>, rank: seq<nat>, vis: seq<seq<CellId>>, objects: seq<Prototypes.Flat>,
                  plans: seq<Plan>, systemValues: map<CellId, string>)
    requires Ranked(cells, rank) && Chained(cells, rank) && VisIn(vis, |cells|)
    requires |plans| == |objects| && ChildrenIn(cells, vis, objects, plans, |objects|)
    ensures var r := ExportDict(cells, rank, vis, objects, plans, systemValues);
      r.Ok? ==>
        && DistinctIds(r.value.valueWrapper)
        && (forall g, g' :: g in r.value.groups && g' in r.value.groups && g != g' ==> r.value.groups[g] != r.value.groups[g'])
        && (forall c, g :: c in r.value.valueWrapper && g in r.value.groups ==> r.value.valueWrapper[c] != r.value.groups[g])
        && r.value.groups.Keys == Elems(ChildOrder(objects, |objects|))
        && r.value.systemValues == systemValues
        && r.value.valueWrapper == Used(Run(cells, rank, ChildSteps(vis, objects, plans, |objects|), map[], NewDict(systemValues)).value.0)
  {
    var x := Run(cells, rank, ChildSteps(vis, objects, plans, |objects|), map[], NewDict(systemValues));
    ExportRun(cells, rank, vis, objects, plans, systemValues);
    if x.Ok? {
      UsedIds(x.value.0, x.value.1);
      FilterIntoEmpty(x.value.0, x.value.1);
    }
  }

  /** The run of the export's lookup ends numbered, with no cell id yet and an id for every group of every object. */
  lemma ExportRun(cells: seq<Cell>, rank: seq<nat>, vis: seq<seq<CellId>>, objects: seq<Prototypes.Flat>,
                  plans: seq<Plan>, systemValues: map<CellId, string>)
    requires Ranked(cells, rank) && Chained(cells, rank) && VisIn(vis, |cells|)
    requires |plans| == |objects| && ChildrenIn(cells, vis, objects, plans, |objects|)
    ensures var x := Run(cells, rank, ChildSteps(vis, objects, plans, |objects|), map[], NewDict(systemValues));
      x.Ok? ==> && Numbered(x.value.0, x.value.1) && x.value.1.valueWrapper == map[]
                && x.value.1.groups.Keys == Elems(ChildOrder(objects, |objects|))
                && x.value.1.systemValues == systemValues
  {
    var d0, w, p := NewDict(systemValues), Whole(objects), Plan(plans, [], []);
    WholeSteps(cells, vis, objects, plans);
    LookupNumbered(cells, rank, vis, w, p, map[], d0);
    ExportRunKeys(cells, rank, vis, objects, plans, systemValues);
  }

  /** The groups numbered by that run are those of the objects, and the system values are kept. */
  lemma ExportRunKeys(cells: seq<Cell>, rank: seq<nat>, vis: seq<seq<CellId>>, objects: seq<Prototypes.Flat>,
                      plans: seq<Plan>, systemValues: map<CellId, string>)
    requires Ranked(cells, rank) && Chained(cells, rank) && VisIn(vis, |cells|)
    requires |plans| == |objects| && ChildrenIn(cells, vis, objects, plans, |objects|)
    ensures var x := Run(cells, rank, ChildSteps(vis, objects, plans, |objects|), map[], NewDict(systemValues));
      x.Ok? ==> && x.value.1.groups.Keys == Elems(ChildOrder(objects, |objects|))
                && x.value.1.systemValues == systemValues
  {
    var d0, w, p := NewDict(systemValues), Whole(objects), Plan(plans, [], []);
    WholeSteps(cells, vis, objects, plans);
    LookupKnows(cells, rank, vis, w, p, map[], d0);
    var r := Run(cells, rank, TreeSteps(vis, w, p), map[], d0);
    if r.Ok? {
      assert d0.groups.Keys == {} && LookupOrder(w) == ChildOrder(objects, |objects|);
      EmptyUnion(Elems(ChildOrder(objects, |objects|)));
    }
  }

  // ----- The exporter -----

  /** `PrototypeExporter`: the flattened objects to export and the status catalog's roots by name. */
  class Exporter {
    var objects: seq<Prototypes.Flat>
    var status: map<string, nat>

    /** A new exporter: no objects, no statuses. */
    constructor ()
      ensures objects == [] && status == map[]
    {
      objects := [];
      status := map[];
    }

    /**
     * `ImportFlatten`: the flattening of each loaded object is appended in
     * the order the loader's dictionary enumerates them (`loaded`), and the
     * loader's statuses are copied in, each replacing the entry under its key.
     */
    method ImportFlatten(scene: Scenes.Scene, loaded: seq<Prototypes.ProtoId>, loadedStatus: map<string, nat>)
      requires scene.Valid() && forall i :: 0 <= i < |loaded| ==> loaded[i] < |scene.protos|
      modifies this, scene.store, scene.store.cells
      ensures scene.Valid() && Scenes.Extends(old(scene.store.groups), scene.store.groups)
      ensures |objects| == |old(objects)| + |loaded| && objects[..|old(objects)|] == old(objects)
      ensures forall i :: 0 <= i < |loaded| ==>
        && Scenes.Shaped(scene.protos, scene.store.groups, loaded[i], objects[|old(objects)| + i])
        && Prototypes.FlatWithin(objects[|old(objects)| + i], 0, |scene.store.groups|)
      ensures status == old(status) + loadedStatus
    {
      var fs := [];
      var i := 0;
      while i < |loaded|
        invariant 0 <= i <= |loaded| && |fs| == i && objects == old(objects) && status == old(status)
        invariant scene.Valid() && Scenes.Extends(old(scene.store.groups), scene.store.groups)
        invariant forall j :: 0 <= j < i ==>
          && Scenes.Shaped(scene.protos, scene.store.groups, loaded[j], fs[j])
          && Prototypes.FlatWithin(fs[j], 0, |scene.store.groups|)
      {
        ghost var gs := scene.store.groups;
        var f := scene.Flatten(loaded[i]);
        forall j | 0 <= j < i
          ensures Scenes.Shaped(scene.protos, scene.store.groups, loaded[j], fs[j])
          ensures Prototypes.FlatWithin(fs[j], 0, |scene.store.groups|)
        {
          Scenes.BodyGrown(scene.protos, gs, scene.store.groups, loaded[j], fs[j]);
          Prototypes.FlatWiden(fs[j], 0, |gs|, 0, |scene.store.groups|);
        }
        Prototypes.FlatWiden(f, |gs|, |scene.store.groups|, 0, |scene.store.groups|);
        fs := fs + [f];
        i := i + 1;
      }
      objects := objects + fs;
      status := Channels.MergeStatus(status, loadedStatus);
    }

    /**
     * The type list of `ExportTypes`: `FindTypes` over each object in turn,
     * so each render name once, in the order of its first occurrence.
     */
    method Types() returns (types: seq<Option<string>>)
      ensures types == AddNew([], ChildPreorder(objects, |objects|))
      ensures NoDup(types) && forall x :: x in types <==> x in ChildPreorder(objects, |objects|)
    {
      types := [];
      var i := 0;
      while i < |objects|
        invariant 0 <= i <= |objects|
        invariant types == AddNew([], ChildPreorder(objects, i))
      {
        types := FindTypes(objects[i], types);
        AddNewAppend([], ChildPreorder(objects, i), Preorder(objects[i]));
        i := i + 1;
      }
      ghost var all := ChildPreorder(objects, |objects|);
      assert types == AddNew([], all);
      AddNewMeaning<Option<string>>([], all);
    }

    /**
     * The lookup of `ExportObjects`: each object's parameter dictionaries
     * are enumerated into a plan, then every object is looked up with one
     * search table and dictionary, then `Filter` gives the cell ids.
     */
    method Lookup(cells: seq<Cell>, ghost rank: seq<nat>, groups: seq<Group>, ghost vis: seq<seq<CellId>>,
                  systemValues: map<CellId, string>) returns (plans: seq<Plan>, r: Result<Dict>)
      requires Ranked(cells, rank) && Chained(cells, rank) && Lists(vis, groups) && VisIn(vis, |cells|)
      requires forall i :: 0 <= i < |objects| ==>
        Prototypes.FlatWithin(objects[i], 0, |groups|) && ParamsIn(objects[i], |cells|)
      ensures |plans| == |objects| && ChildrenIn(cells, vis, objects, plans, |objects|)
      ensures r == ExportDict(cells, rank, vis, objects, plans, systemValues)
    {
      plans := [];
      var i := 0;
      while i < |objects|
        invariant 0 <= i <= |objects| && |plans| == i
        invariant forall j :: 0 <= j < i ==> TreeIn(cells, vis, objects[j], plans[j])
      {
        var p := MakePlan(objects[i]);
        plans := plans + [p];
        i := i + 1;
      }
      ChildrenInAll(cells, vis, objects, plans, |objects|);
      var x := LookupChildren(cells, rank, groups, vis, objects, plans, map[], NewDict(systemValues));
      if x.Fail? {
        return plans, Fail(x.fault);
      }
      var m := Filter(x.value.0, x.value.1.valueWrapper);
      if m.Fail? {
        return plans, Fail(m.fault);
      }
      r := Ok(x.value.1.(valueWrapper := m.value));
    }
  }
}
