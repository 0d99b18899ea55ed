/**
 * Prototypes and their flattening.  A prototype inherits from its base
 * prototype and holds child prototypes, animation groups and named
 * parameter cells; flattening turns the inheritance tree into a concrete
 * `Flat` tree, cloning every parameter and group and recording, in a
 * helper, which original became which clone, so that every reference can
 * then be redirected into the result.
 *
 * Prototypes live in an arena and are named by their index.  A prototype's
 * base and children come before it, which is what makes the recursive
 * walks of the source terminate (a cycle there recurses forever).
 */
module Prototypes {
  import opened Wrappers
  import opened Cells
  import opened Retarget
  import opened Groups

  type ProtoId = nat

  /** `typeof(PrototypeBase).FullName`, the render name when no prototype on the chain sets one. */
  const DefaultRenderName: string := "Graphix.Prototypes.PrototypeBase"

  /** A `PrototypeBase`: its name, base, children, renderer, render name, groups and parameters. */
  datatype Proto = Proto(name: Option<string>, base: Option<ProtoId>, container: seq<ProtoId>,
                         renderElement: Option<string>, renderName: Option<string>,
                         animations: seq<GroupId>, parameter: map<string, CellId>)

  /** A `FlatPrototype`: children, groups, parameters, render name and name of a flattened prototype. */
  datatype Flat = Flat(container: seq<Flat>, animations: seq<GroupId>, parameter: map<string, CellId>,
                       renderName: Option<string>, name: Option<string>)

  /** A new `FlatPrototype`: everything empty or null. */
  const EmptyFlat: Flat := Flat([], [], map[], None, None)

  /** The base and the children of prototype `x`, stored at `p`, come before it. */
  predicate Below(x: Proto, p: nat)
  {
    (x.base.Some? ==> x.base.value < p) && forall i :: 0 <= i < |x.container| ==> x.container[i] < p
  }

  /** Every prototype's base and children come before it. */
  predicate Ordered(protos: seq<Proto>)
  {
    forall p :: 0 <= p < |protos| ==> Below(protos[p], p)
  }

  // ----- The base chain -----

  /** `q` is `p` or lies on `p`'s base chain. */
  predicate OnChain(protos: seq<Proto>, p: ProtoId, q: ProtoId)
    requires Ordered(protos) && p < |protos|
    decreases p
  {
    q == p || (protos[p].base.Some? && OnChain(protos, protos[p].base.value, q))
  }

  /** The parameter names declared along the base chain. */
  function ChainKeys(protos: seq<Proto>, p: ProtoId): set<string>
    requires Ordered(protos) && p < |protos|
    decreases p
  {
    var x := protos[p];
    x.parameter.Keys + if x.base.Some? then ChainKeys(protos, x.base.value) else {}
  }

  /** The children along the base chain, the most basic prototype's first; all of them come before `p`. */
  function ChainChildren(protos: seq<Proto>, p: ProtoId): (r: seq<ProtoId>)
    requires Ordered(protos) && p < |protos|
    ensures forall i :: 0 <= i < |r| ==> r[i] < p
    decreases p
  {
    var x := protos[p];
    assert Below(x, p);
    (if x.base.Some? then ChainChildren(protos, x.base.value) else []) + x.container
  }

  /** The groups along the base chain, the most basic prototype's first. */
  function ChainAnims(protos: seq<Proto>, p: ProtoId): seq<GroupId>
    requires Ordered(protos) && p < |protos|
    decreases p
  {
    var x := protos[p];
    (if x.base.Some? then ChainAnims(protos, x.base.value) else []) + x.animations
  }

  /** The render name of the most derived prototype on the chain that sets one. */
  function ChainRender(protos: seq<Proto>, p: ProtoId): Option<string>
    requires Ordered(protos) && p < |protos|
    decreases p
  {
    var x := protos[p];
    if x.renderName.Some? then x.renderName
    else if x.base.Some? then ChainRender(protos, x.base.value)
    else None
  }

  // ----- Lookups -----

  /**
   * `getParameter`: the cell the nearest prototype on the base chain
   * declares under `name`, or null.
   */
  function LookupParameter(protos: seq<Proto>, p: ProtoId, name: string): Option<CellId>
    requires Ordered(protos) && p < |protos|
    decreases p
  {
    var x := protos[p];
    if name in x.parameter then Some(x.parameter[name])
    else if x.base.Some? then LookupParameter(protos, x.base.value, name)
    else None
  }

  /**
   * The lookup finds a cell exactly when some prototype on the chain
   * declares the name, and the cell it finds is one declared on the chain.
   */
  lemma {:induction false} LookupParameterFinds(protos: seq<Proto>, p: ProtoId, name: string)
    requires Ordered(protos) && p < |protos|
    ensures LookupParameter(protos, p, name).Some? <==> name in ChainKeys(protos, p)
    ensures LookupParameter(protos, p, name).Some? ==>
      exists q :: 0 <= q < |protos| && OnChain(protos, p, q) && name in protos[q].parameter &&
        protos[q].parameter[name] == LookupParameter(protos, p, name).value
    decreases p
  {
    assert Below(protos[p], p);
    var x := protos[p];
    if name in x.parameter {
      assert OnChain(protos, p, p);
    } else if x.base.Some? {
      var b := x.base.value;
      LookupParameterFinds(protos, b, name);
      if LookupParameter(protos, b, name).Some? {
        var q :| 0 <= q < |protos| && OnChain(protos, b, q) && name in protos[q].parameter &&
          protos[q].parameter[name] == LookupParameter(protos, b, name).value;
        assert OnChain(protos, p, q);
      }
    }
  }

  /** Some prototype reachable from `p` through children and bases is named `name`. */
  predicate Named(protos: seq<Proto>, p: ProtoId, name: Option<string>)
    requires Ordered(protos) && p < |protos|
    decreases p
  {
    var x := protos[p];
    assert Below(x, p);
    x.name == name
    || (exists j :: 0 <= j < |x.container| && Named(protos, x.container[j], name))
    || (x.base.Some? && Named(protos, x.base.value, name))
  }

  /** Some child from index `i` on, or a prototype reachable from it, is named `name`. */
  predicate NamedFrom(protos: seq<Proto>, owner: ProtoId, i: nat, name: Option<string>)
    requires Ordered(protos) && owner < |protos|
  {
    var x := protos[owner];
    assert Below(x, owner);
    exists j :: i <= j < |x.container| && Named(protos, x.container[j], name)
  }

  /**
   * `GetElement`: the prototype itself when it has the name, else the first
   * match among its children in order, else the match in its base.
   */
  function GetElement(protos: seq<Proto>, p: ProtoId, name: Option<string>): (r: Option<ProtoId>)
    requires Ordered(protos) && p < |protos|
    decreases p, 1
  {
    var x := protos[p];
    assert Below(x, p);
    if x.name == name then Some(p)
    else
      var c := FirstElement(protos, p, 0, name);
      if c.Some? then c
      else if x.base.Some? then GetElement(protos, x.base.value, name)
      else None
  }

  /** The loop over the children in `GetElement` and `GetOwnElement`, from child `i` on. */
  function FirstElement(protos: seq<Proto>, owner: ProtoId, i: nat, name: Option<string>): (r: Option<ProtoId>)
    requires Ordered(protos) && owner < |protos|
    decreases owner, 0, |protos[owner].container| - i
  {
    var x := protos[owner];
    assert Below(x, owner);
    if i >= |x.container| then None
    else
      var r := GetElement(protos, x.container[i], name);
      if r.Some? then r else FirstElement(protos, owner, i + 1, name)
  }

  /** `GetOwnElement`: as `GetElement`, without the base; the children are still searched with `GetElement`. */
  function GetOwnElement(protos: seq<Proto>, p: ProtoId, name: Option<string>): (r: Option<ProtoId>)
    requires Ordered(protos) && p < |protos|
  {
    if protos[p].name == name then Some(p) else FirstElement(protos, p, 0, name)
  }

  /** What the search finds has the name, and it finds something exactly when something reachable has it. */
  lemma {:induction false} GetElementFinds(protos: seq<Proto>, p: ProtoId, name: Option<string>)
    requires Ordered(protos) && p < |protos|
    ensures var r := GetElement(protos, p, name);
      && (r.Some? ==> r.value < |protos| && protos[r.value].name == name)
      && (r.Some? <==> Named(protos, p, name))
    decreases p, 1
  {
    var x := protos[p];
    assert Below(x, p);
    if x.name != name {
      FirstElementFinds(protos, p, 0, name);
      if x.base.Some? {
        GetElementFinds(protos, x.base.value, name);
      }
      assert NamedFrom(protos, p, 0, name) <==> exists j :: 0 <= j < |x.container| && Named(protos, x.container[j], name);
    }
  }

  /** The children loop finds a prototype with the name exactly when one is reachable from a child from `i` on. */
  lemma {:induction false} FirstElementFinds(protos: seq<Proto>, owner: ProtoId, i: nat, name: Option<string>)
    requires Ordered(protos) && owner < |protos|
    ensures var r := FirstElement(protos, owner, i, name);
      && (r.Some? ==> r.value < |protos| && protos[r.value].name == name)
      && (r.Some? <==> NamedFrom(protos, owner, i, name))
    decreases owner, 0, |protos[owner].container| - i
  {
    var x := protos[owner];
    assert Below(x, owner);
    if i < |x.container| {
      GetElementFinds(protos, x.container[i], name);
      FirstElementFinds(protos, owner, i + 1, name);
      if NamedFrom(protos, owner, i, name) && !Named(protos, x.container[i], name) {
        var j :| i <= j < |x.container| && Named(protos, x.container[j], name);
        assert NamedFrom(protos, owner, i + 1, name);
      }
    }
  }

  /** The own search finds something exactly when the prototype or something reachable from a child has the name. */
  lemma GetOwnElementFinds(protos: seq<Proto>, p: ProtoId, name: Option<string>)
    requires Ordered(protos) && p < |protos|
    ensures var r := GetOwnElement(protos, p, name);
      && (r.Some? ==> r.value < |protos| && protos[r.value].name == name)
      && (r.Some? <==> protos[p].name == name || NamedFrom(protos, p, 0, name))
  {
    FirstElementFinds(protos, p, 0, name);
  }

  /** `GetOwnAnimation` over `gs`: the first group with the name, or null. */
  function FirstNamedGroup(groups: seq<Group>, gs: seq<GroupId>, name: Option<string>): (r: Option<GroupId>)
    requires forall i :: 0 <= i < |gs| ==> gs[i] < |groups|
  {
    if gs == [] then None
    else if groups[gs[0]].name == name then Some(gs[0])
    else FirstNamedGroup(groups, gs[1..], name)
  }

  /** The first group with the name: no earlier group has it, and none is found only when none has it. */
  lemma {:induction false} FirstNamedGroupFinds(groups: seq<Group>, gs: seq<GroupId>, name: Option<string>)
    requires forall i :: 0 <= i < |gs| ==> gs[i] < |groups|
    ensures var r := FirstNamedGroup(groups, gs, name);
      && (r.Some? <==> exists i :: 0 <= i < |gs| && groups[gs[i]].name == name)
      && (r.Some? ==> exists i :: 0 <= i < |gs| && gs[i] == r.value && groups[gs[i]].name == name &&
                        forall j :: 0 <= j < i ==> groups[gs[j]].name != name)
  {
    if gs != [] {
      FirstNamedGroupFinds(groups, gs[1..], name);
      if groups[gs[0]].name != name {
        var r := FirstNamedGroup(groups, gs, name);
        if r.Some? {
          var i :| 0 <= i < |gs[1..]| && gs[1..][i] == r.value && groups[gs[1..][i]].name == name &&
            forall j :: 0 <= j < i ==> groups[gs[1..][j]].name != name;
          assert gs[i + 1] == r.value;
          forall j | 0 <= j < i + 1
            ensures groups[gs[j]].name != name
          {
            if j > 0 {
              assert gs[j] == gs[1..][j - 1];
            }
          }
        } else {
          forall i | 0 <= i < |gs|
            ensures groups[gs[i]].name != name
          {
            if i > 0 {
              assert gs[i] == gs[1..][i - 1];
            }
          }
        }
      }
    }
  }

  /** The groups of the prototypes on the chain are stored groups. */
  predicate GroupsIn(protos: seq<Proto>, n: nat)
  {
    forall p, i :: 0 <= p < |protos| && 0 <= i < |protos[p].animations| ==> protos[p].animations[i] < n
  }

  /** `GetAnimation`: the first own group with the name, else the match in the base, else null. */
  function GetAnimation(groups: seq<Group>, protos: seq<Proto>, p: ProtoId, name: Option<string>): (r: Option<GroupId>)
    requires Ordered(protos) && p < |protos| && GroupsIn(protos, |groups|)
    decreases p
  {
    var x := protos[p];
    var own := FirstNamedGroup(groups, x.animations, name);
    if own.Some? then own
    else if x.base.Some? then GetAnimation(groups, protos, x.base.value, name)
    else None
  }

  /** What `GetAnimation` finds is a group on the chain with the name; it finds one exactly when one exists. */
  lemma {:induction false} GetAnimationFinds(groups: seq<Group>, protos: seq<Proto>, p: ProtoId, name: Option<string>)
    requires Ordered(protos) && p < |protos| && GroupsIn(protos, |groups|)
    ensures var r := GetAnimation(groups, protos, p, name); var all := ChainAnims(protos, p);
      && (r.Some? ==> r.value in all && r.value < |groups| && groups[r.value].name == name)
      && (r.Some? <==> exists g :: g in all && g < |groups| && groups[g].name == name)
    decreases p
  {
    var x := protos[p];
    assert Below(x, p);
    FirstNamedGroupFinds(groups, x.animations, name);
    var all := ChainAnims(protos, p);
    var r := GetAnimation(groups, protos, p, name);
    if x.base.Some? {
      var b := x.base.value;
      GetAnimationFinds(groups, protos, b, name);
      assert all == ChainAnims(protos, b) + x.animations;
      if r.None? {
        forall g | g in all && g < |groups|
          ensures groups[g].name != name
        {
          if g !in ChainAnims(protos, b) {
            var i :| 0 <= i < |x.animations| && x.animations[i] == g;
          }
        }
      }
    } else {
      assert all == x.animations;
      if r.None? {
        forall g | g in all && g < |groups|
          ensures groups[g].name != name
        {
          var i :| 0 <= i < |x.animations| && x.animations[i] == g;
        }
      }
    }
  }

  // ----- The flattener's helper -----

  /** A `PrototypeFlattenerHelper`: originals to clones, for cells and for groups. */
  class Helper {
    var conversion: Conversion
    var animations: map<GroupId, GroupId>

    constructor ()
      ensures conversion == map[] && animations == map[]
    {
      conversion := map[];
      animations := map[];
    }

    /** `Import`: every entry of `other` copied in, overwriting the entry under the same key. */
    method Import(other: Helper)
      modifies this
      ensures conversion == old(conversion) + old(other.conversion)
      ensures animations == old(animations) + old(other.animations)
    {
      var conv, anims := other.conversion, other.animations;
      var keys := conv.Keys;
      while keys != {}
        invariant keys <= conv.Keys
        invariant forall x :: x in conversion <==> x in old(conversion) || (x in conv && x !in keys)
        invariant forall x :: x in conversion ==>
          conversion[x] == if x in conv && x !in keys then conv[x] else old(conversion)[x]
        invariant animations == old(animations)
        decreases keys
      {
        var k :| k in keys;
        conversion := conversion[k := conv[k]];
        keys := keys - {k};
      }
      var groups := anims.Keys;
      while groups != {}
        invariant groups <= anims.Keys
        invariant conversion == old(conversion) + conv
        invariant forall g :: g in animations <==> g in old(animations) || (g in anims && g !in groups)
        invariant forall g :: g in animations ==>
          animations[g] == if g in anims && g !in groups then anims[g] else old(animations)[g]
        decreases groups
      {
        var g :| g in groups;
        animations := animations[g := anims[g]];
        groups := groups - {g};
      }
    }
  }

  // ----- Redirecting the groups of a flat tree -----

  /**
   * The groups after `AnimationGroup.MoveTargets` ran on the groups `ids`
   * in order (an identity outside the store names no group and is skipped).
   */
  function MoveAll(gs: seq<Group>, ids: seq<GroupId>, conv: Conversion, anims: map<GroupId, GroupId>): (r: seq<Group>)
    ensures |r| == |gs|
    decreases |ids|
  {
    if ids == [] then gs
    else
      var r := MoveAll(gs, ids[..|ids| - 1], conv, anims);
      var g := ids[|ids| - 1];
      if g < |r| then r[g := MoveGroup(r[g], conv, anims)] else r
  }

  /** Moving along `a + b` is moving along `a`, then along `b`. */
  lemma {:induction false} MoveAllAppend(gs: seq<Group>, a: seq<GroupId>, b: seq<GroupId>,
                                         conv: Conversion, anims: map<GroupId, GroupId>)
    ensures MoveAll(gs, a + b, conv, anims) == MoveAll(MoveAll(gs, a, conv, anims), b, conv, anims)
    decreases |b|
  {
    if b == [] {
      assert a + b == a;
    } else {
      var b' := b[..|b| - 1];
      assert (a + b)[..|a + b| - 1] == a + b';
      MoveAllAppend(gs, a, b', conv, anims);
    }
  }

  /**
   * Moving keeps every group's name, hooks and numbers of activations and
   * effects, and leaves the groups not in `ids` as they were.
   */
  lemma {:induction false} MoveAllKeeps(gs: seq<Group>, ids: seq<GroupId>, conv: Conversion, anims: map<GroupId, GroupId>)
    ensures var r := MoveAll(gs, ids, conv, anims);
      forall i :: 0 <= i < |gs| ==>
        && r[i].name == gs[i].name && r[i].hooked == gs[i].hooked
        && |r[i].activations| == |gs[i].activations| && |r[i].effects| == |gs[i].effects|
        && (i !in ids ==> r[i] == gs[i])
    decreases |ids|
  {
    if ids != [] {
      var pre := ids[..|ids| - 1];
      MoveAllKeeps(gs, pre, conv, anims);
      assert ids == pre + [ids[|ids| - 1]];
    }
  }

  /**
   * When no image is itself a key, moving a group several times is moving
   * it once: every group named in `ids` is moved once, the rest are kept.
   */
  lemma {:induction false} MoveAllOnce(gs: seq<Group>, ids: seq<GroupId>, conv: Conversion, anims: map<GroupId, GroupId>)
    requires ImagesNotKeys(conv) && GroupImagesNotKeys(anims)
    ensures var r := MoveAll(gs, ids, conv, anims);
      forall i :: 0 <= i < |gs| ==> r[i] == if i in ids then MoveGroup(gs[i], conv, anims) else gs[i]
    decreases |ids|
  {
    if ids != [] {
      var pre := ids[..|ids| - 1];
      var g := ids[|ids| - 1];
      MoveAllOnce(gs, pre, conv, anims);
      assert ids == pre + [g];
      if g < |gs| {
        MoveGroupIdempotent(gs[g], conv, anims);
      }
    }
  }

  /** Every group of the flat tree `f` lies in `lo..hi`. */
  predicate FlatWithin(f: Flat, lo: nat, hi: nat)
    decreases f
  {
    (forall i :: 0 <= i < |f.animations| ==> lo <= f.animations[i] < hi)
    && forall i :: 0 <= i < |f.container| ==> FlatWithin(f.container[i], lo, hi)
  }

  /** A wider range holds the groups of a flat tree as well. */
  lemma {:induction false} FlatWiden(f: Flat, lo: nat, hi: nat, lo': nat, hi': nat)
    requires FlatWithin(f, lo, hi) && lo' <= lo && hi <= hi'
    ensures FlatWithin(f, lo', hi')
    decreases f
  {
    forall i | 0 <= i < |f.container|
      ensures FlatWithin(f.container[i], lo', hi')
    {
      FlatWiden(f.container[i], lo, hi, lo', hi');
    }
  }

  /** The groups of a flat tree in the order the private `MoveTargets` visits them: its own, then each child's. */
  function FlatGroups(f: Flat): seq<GroupId>
    decreases f, 1
  {
    f.animations + ChildGroups(f.container, |f.container|)
  }

  /** The groups of the first `k` children, in order. */
  function ChildGroups(cs: seq<Flat>, k: nat): seq<GroupId>
    requires k <= |cs|
    decreases cs, 0, k
  {
    if k == 0 then [] else ChildGroups(cs, k - 1) + FlatGroups(cs[k - 1])
  }

  /**
   * The private `MoveTargets(helper, flat)`, on groups: the flat's own
   * groups, then each child's tree, are redirected in order.  (Its
   * parameter loop redirects cells; that part is not modelled here.)
   */
  method MoveFlat(store: GroupStore, conv: Conversion, anims: map<GroupId, GroupId>, f: Flat)
    requires store.Valid() && ImagesIn(conv, |store.cells.cells|) && FlatWithin(f, 0, |store.groups|)
    modifies store`groups
    ensures store.Valid() && store.groups == MoveAll(old(store.groups), FlatGroups(f), conv, anims)
    decreases f, 1
  {
    ghost var gs0 := store.groups;
    MoveEach(store, conv, anims, f.animations);
    MoveChildren(store, conv, anims, f.container);
    MoveAllAppend(gs0, f.animations, ChildGroups(f.container, |f.container|), conv, anims);
  }

  /** The loop of the private `MoveTargets` over a flat's own groups. */
  method MoveEach(store: GroupStore, conv: Conversion, anims: map<GroupId, GroupId>, ids: seq<GroupId>)
    requires store.Valid() && ImagesIn(conv, |store.cells.cells|)
    requires forall i :: 0 <= i < |ids| ==> ids[i] < |store.groups|
    modifies store`groups
    ensures store.Valid() && store.groups == MoveAll(old(store.groups), ids, conv, anims)
  {
    var i := 0;
    while i < |ids|
      invariant 0 <= i <= |ids|
      invariant store.Valid() && store.groups == MoveAll(old(store.groups), ids[..i], conv, anims)
    {
      assert ids[..i + 1][..i] == ids[..i];
      store.MoveTargets(ids[i], conv, anims);
      i := i + 1;
    }
    assert ids[..i] == ids;
  }

  /** The loop of the private `MoveTargets` over a flat's children, each moved as a whole tree. */
  method MoveChildren(store: GroupStore, conv: Conversion, anims: map<GroupId, GroupId>, cs: seq<Flat>)
    requires store.Valid() && ImagesIn(conv, |store.cells.cells|)
    requires forall i :: 0 <= i < |cs| ==> FlatWithin(cs[i], 0, |store.groups|)
    modifies store`groups
    ensures store.Valid() && store.groups == MoveAll(old(store.groups), ChildGroups(cs, |cs|), conv, anims)
    decreases cs, 0
  {
    ghost var gs0 := store.groups;
    var j := 0;
    while j < |cs|
      invariant 0 <= j <= |cs|
      invariant store.Valid() && store.groups == MoveAll(gs0, ChildGroups(cs, j), conv, anims)
    {
      MoveChildStep(gs0, cs, j, conv, anims);
      MoveFlat(store, conv, anims, cs[j]);
      j := j + 1;
    }
  }

  /** Moving the groups of the first `j + 1` children is moving those of the first `j`, then those of child `j`. */
  lemma MoveChildStep(gs: seq<Group>, cs: seq<Flat>, j: nat, conv: Conversion, anims: map<GroupId, GroupId>)
    requires j < |cs|
    ensures MoveAll(gs, ChildGroups(cs, j + 1), conv, anims) ==
      MoveAll(MoveAll(gs, ChildGroups(cs, j), conv, anims), FlatGroups(cs[j]), conv, anims)
  {
    MoveAllAppend(gs, ChildGroups(cs, j), FlatGroups(cs[j]), conv, anims);
  }

  /**
   * When no image is itself a key, every group moved along `ids` ends up
   * redirected: none of its references is left pointing at an original.
   */
  lemma MoveAllRedirects(gs: seq<Group>, ids: seq<GroupId>, conv: Conversion, anims: map<GroupId, GroupId>)
    requires ImagesNotKeys(conv) && GroupImagesNotKeys(anims)
    ensures forall i :: 0 <= i < |ids| && ids[i] < |gs| ==> Redirected(MoveAll(gs, ids, conv, anims)[ids[i]], conv, anims)
  {
    MoveAllOnce(gs, ids, conv, anims);
    forall i | 0 <= i < |ids| && ids[i] < |gs|
      ensures Redirected(MoveAll(gs, ids, conv, anims)[ids[i]], conv, anims)
    {
      MoveGroupRedirects(gs[ids[i]], conv, anims);
    }
  }

  // ----- The steps of the private `Flatten` -----

  /** Every parameter cell of every prototype lies in a store of `n` cells. */
  predicate ParamsIn(protos: seq<Proto>, n: nat)
  {
    forall p, k :: 0 <= p < |protos| && k in protos[p].parameter ==> protos[p].parameter[k] < n
  }

  /** Every cell of `m` lies in a store of `n` cells. */
  predicate MapIn(m: map<string, CellId>, n: nat)
  {
    forall k :: k in m ==> m[k] < n
  }

  /** The cell a lookup finds lies in the store. */
  lemma LookupParameterIn(protos: seq<Proto>, p: ProtoId, name: string, n: nat)
    requires Ordered(protos) && p < |protos| && ParamsIn(protos, n)
    ensures LookupParameter(protos, p, name).Some? ==> LookupParameter(protos, p, name).value < n
  {
    LookupParameterFinds(protos, p, name);
  }

  /**
   * No cell serves under two names of `own` or of `inh`, and a cell of both
   * serves under the same name in each.
   */
  predicate Unshared(own: map<string, CellId>, inh: map<string, CellId>)
  {
    && (forall k1, k2 :: k1 in own && k2 in own && own[k1] == own[k2] ==> k1 == k2)
    && (forall k1, k2 :: k1 in inh && k2 in inh && inh[k1] == inh[k2] ==> k1 == k2)
    && (forall k1, k2 :: k1 in inh && k2 in own && inh[k1] == own[k2] ==> k1 == k2)
  }

  /** `x` is a cell the parameter loops register: a node's cell, or an inherited cell the node overrides. */
  predicate Registered(own: map<string, CellId>, inh: map<string, CellId>, x: CellId)
  {
    (exists k :: k in own && own[k] == x) || (exists k :: k in own && k in inh && inh[k] == x)
  }

  /**
   * The two parameter loops of the private `Flatten`.  A name the node
   * declares and the chain already has gets one clone of the node's cell,
   * under which both the inherited cell and the node's cell are registered;
   * a name only the node declares gets a clone of its cell, registered for
   * that cell; inherited names the node does not declare keep their cells.
   */
  method RegisterParams(store: GroupStore, helper: Helper, own: map<string, CellId>, inh: map<string, CellId>)
    returns (params: map<string, CellId>)
    requires store.Valid() && MapIn(own, |store.cells.cells|) && ImagesIn(helper.conversion, |store.cells.cells|)
    modifies store`rank, store.cells, helper
    ensures store.Valid() && Cloning.Extends(old(store.cells.cells), old(store.rank), store.cells.cells, store.rank)
    ensures ImagesIn(helper.conversion, |store.cells.cells|)
    ensures params.Keys == inh.Keys + own.Keys
    ensures forall k :: k in inh && k !in own ==> params[k] == inh[k]
    ensures forall k :: k in own ==> Cloning.CloneOf(old(store.cells.cells), old(store.rank), store.cells.cells, params[k], own[k])
    ensures forall k1, k2 :: k1 in own && k2 in own && params[k1] == params[k2] ==> k1 == k2
    ensures helper.animations == old(helper.animations)
    ensures Unshared(own, inh) ==> forall k :: k in own ==>
      && own[k] in helper.conversion && helper.conversion[own[k]] == params[k]
      && (k in inh ==> inh[k] in helper.conversion && helper.conversion[inh[k]] == params[k])
    ensures forall x :: x in old(helper.conversion) && !Registered(own, inh, x) ==>
      x in helper.conversion && helper.conversion[x] == old(helper.conversion)[x]
  {
    ghost var orig, rank0 := store.cells.cells, store.rank;
    var conv;
    params, conv := InheritedParams(store, own, inh, helper.conversion);
    ghost var mid, rank1 := store.cells.cells, store.rank;
    params, conv := OwnOnlyParams(store, own, inh, params, conv);
    helper.conversion := conv;
    forall k | k in own
      ensures Cloning.CloneOf(orig, rank0, store.cells.cells, params[k], own[k])
    {
      if k in inh {
        Cloning.CloneOfGrows(orig, rank0, mid, store.cells.cells, params[k], own[k]);
      } else {
        Cloning.CloneOfBase(orig, rank0, mid, rank1, store.cells.cells, params[k], own[k]);
      }
    }
  }

  /**
   * The first loop, over the inherited names: each the node declares as
   * well gets a clone of the node's cell, and both cells are registered for
   * the clone in `conv0`.
   */
  method InheritedParams(store: GroupStore, own: map<string, CellId>, inh: map<string, CellId>, conv0: Conversion)
    returns (params: map<string, CellId>, conv: Conversion)
    requires store.Valid() && MapIn(own, |store.cells.cells|) && ImagesIn(conv0, |store.cells.cells|)
    modifies store`rank, store.cells
    ensures store.Valid() && Cloning.Extends(old(store.cells.cells), old(store.rank), store.cells.cells, store.rank)
    ensures ImagesIn(conv, |store.cells.cells|)
    ensures forall k :: k in params <==> k in inh
    ensures forall k :: k in inh && k !in own ==> params[k] == inh[k]
    ensures forall k :: k in inh && k in own ==>
      Cloning.CloneOf(old(store.cells.cells), old(store.rank), store.cells.cells, params[k], own[k])
    ensures forall k1, k2 :: k1 in inh && k1 in own && k2 in inh && k2 in own && params[k1] == params[k2] ==> k1 == k2
    ensures Unshared(own, inh) ==> forall k :: k in own && k in inh ==>
      && own[k] in conv && conv[own[k]] == params[k]
      && inh[k] in conv && conv[inh[k]] == params[k]
    ensures forall x :: x in conv0 && !Registered(own, inh, x) ==> x in conv && conv[x] == conv0[x]
  {
    ghost var orig, rank0 := store.cells.cells, store.rank;
    params, conv := inh, conv0;
    ghost var origin: map<CellId, string> := map[];
    ghost var done: set<string> := {};
    var keys := inh.Keys;
    InheritedStart(orig, rank0, own, inh, conv0);
    while keys != {}
      invariant store.Valid() && InheritedLoop(orig, rank0, own, inh, conv0, store.cells.cells, store.rank, keys, done, params, conv, origin)
      decreases keys
    {
      var k :| k in keys;
      params, conv, origin, done := InheritedNext(store, own, inh, conv0, k, keys, params, conv, origin, done, orig, rank0);
      keys := keys - {k};
    }
    InheritedDone(orig, rank0, own, inh, conv0, store.cells.cells, store.rank, done, params, conv, origin);
  }

  /**
   * What the first loop keeps with `keys` still to visit: the visited names
   * the node declares too, `done`, map to clones taken after `orig`, each
   * registered for both its cells and told apart by `origin`; every other
   * name keeps its inherited cell and `conv0`'s other entries stay.
   */
  ghost predicate InheritedLoop(orig: seq<Cell>, rank0: seq<nat>, own: map<string, CellId>, inh: map<string, CellId>,
                                conv0: Conversion, cells: seq<Cell>, rank: seq<nat>, keys: set<string>, done: set<string>,
                                params: map<string, CellId>, conv: Conversion, origin: map<CellId, string>)
  {
    && Ranked(orig, rank0) && MapIn(own, |orig|) && keys <= inh.Keys
    && Cloning.Extends(orig, rank0, cells, rank) && ImagesIn(conv, |cells|)
    && (forall k :: k in params <==> k in inh)
    && (forall k :: k in done <==> k in inh && k !in keys && k in own)
    && (forall k :: k in inh && k !in done ==> params[k] == inh[k])
    && ClonedParams(orig, rank0, cells, own, params, done)
    && (forall k :: k in done ==> params[k] in origin && origin[params[k]] == k)
    && (forall x :: x in origin ==> x < |cells|)
    && (forall x :: x in conv0 && !Registered(own, inh, x) ==> x in conv && conv[x] == conv0[x])
    && (Unshared(own, inh) ==> forall k :: k in done ==>
          && own[k] in conv && conv[own[k]] == params[k]
          && inh[k] in conv && conv[inh[k]] == params[k])
  }

  /** Before the first loop: every inherited name still to visit, nothing cloned. */
  lemma InheritedStart(orig: seq<Cell>, rank0: seq<nat>, own: map<string, CellId>, inh: map<string, CellId>, conv0: Conversion)
    requires Ranked(orig, rank0) && MapIn(own, |orig|) && ImagesIn(conv0, |orig|)
    ensures InheritedLoop(orig, rank0, own, inh, conv0, orig, rank0, inh.Keys, {}, inh, conv0, map[])
  {
  }

  /** The body of the first loop for the name `k`: cloned and registered when the node declares it too. */
  method InheritedNext(store: GroupStore, own: map<string, CellId>, inh: map<string, CellId>, conv0: Conversion,
                       k: string, keys: set<string>, params: map<string, CellId>, conv: Conversion,
                       ghost origin: map<CellId, string>, ghost done: set<string>, ghost orig: seq<Cell>, ghost rank0: seq<nat>)
    returns (params': map<string, CellId>, conv': Conversion, ghost origin': map<CellId, string>, ghost done': set<string>)
    requires k in keys && store.Valid()
    requires InheritedLoop(orig, rank0, own, inh, conv0, store.cells.cells, store.rank, keys, done, params, conv, origin)
    modifies store`rank, store.cells
    ensures store.Valid()
    ensures InheritedLoop(orig, rank0, own, inh, conv0, store.cells.cells, store.rank, keys - {k}, done', params', conv', origin')
    ensures k !in own ==> params' == params && conv' == conv
    ensures k in own ==> Cloning.CloneOf(orig, rank0, store.cells.cells, params'[k], own[k])
  {
    params', conv', origin', done' := params, conv, origin, done;
    if k in own {
      ghost var before, rankb := store.cells.cells, store.rank;
      var c := store.CloneParam(own[k], orig, rank0);
      InheritedStep(orig, rank0, own, inh, conv0, before, rankb, store.cells.cells, store.rank, keys, done, params, conv, origin, k, c);
      conv' := conv[inh[k] := c][own[k] := c];
      params' := params[k := c];
      origin' := origin[c := k];
      done' := done + {k};
    }
  }

  /** The name `k`, declared by the node too, cloned to `c` past the end of `before`: the loop's facts one name further. */
  lemma InheritedStep(orig: seq<Cell>, rank0: seq<nat>, own: map<string, CellId>, inh: map<string, CellId>, conv0: Conversion,
                      before: seq<Cell>, rankb: seq<nat>, cells: seq<Cell>, rank: seq<nat>, keys: set<string>, done: set<string>,
                      params: map<string, CellId>, conv: Conversion, origin: map<CellId, string>, k: string, c: CellId)
    requires InheritedLoop(orig, rank0, own, inh, conv0, before, rankb, keys, done, params, conv, origin)
    requires k in keys && k in own && Cloning.Extends(before, rankb, cells, rank)
    requires Cloning.CloneOf(orig, rank0, cells, c, own[k]) && |before| <= c
    ensures InheritedLoop(orig, rank0, own, inh, conv0, cells, rank, keys - {k}, done + {k}, params[k := c],
                          conv[inh[k] := c][own[k] := c], origin[c := k])
  {
    Cloning.ExtendsTransitive(orig, rank0, before, rankb, cells, rank);
    ClonedParamsStep(orig, rank0, before, cells, own, params, done, k, c);
    assert Registered(own, inh, inh[k]) && Registered(own, inh, own[k]);
    if Unshared(own, inh) {
      SharedCloneStep(own, inh, conv, params, done, k, c);
    }
  }

  /** After the first loop: what `InheritedParams` ensures, from what the loop kept. */
  lemma InheritedDone(orig: seq<Cell>, rank0: seq<nat>, own: map<string, CellId>, inh: map<string, CellId>, conv0: Conversion,
                      cells: seq<Cell>, rank: seq<nat>, done: set<string>,
                      params: map<string, CellId>, conv: Conversion, origin: map<CellId, string>)
    requires InheritedLoop(orig, rank0, own, inh, conv0, cells, rank, {}, done, params, conv, origin)
    ensures Cloning.Extends(orig, rank0, cells, rank) && ImagesIn(conv, |cells|)
    ensures forall k :: k in params <==> k in inh
    ensures forall k :: k in inh && k !in own ==> params[k] == inh[k]
    ensures forall k :: k in inh && k in own ==> Cloning.CloneOf(orig, rank0, cells, params[k], own[k])
    ensures forall k1, k2 :: k1 in inh && k1 in own && k2 in inh && k2 in own && params[k1] == params[k2] ==> k1 == k2
    ensures Unshared(own, inh) ==> forall k :: k in own && k in inh ==>
      && own[k] in conv && conv[own[k]] == params[k]
      && inh[k] in conv && conv[inh[k]] == params[k]
    ensures forall x :: x in conv0 && !Registered(own, inh, x) ==> x in conv && conv[x] == conv0[x]
  {
    forall k1, k2 | k1 in inh && k1 in own && k2 in inh && k2 in own && params[k1] == params[k2]
      ensures k1 == k2
    {
      assert k1 in done && k2 in done;
    }
  }

  /** Each name of `done` maps, in `params`, to a clone in `cells` of its cell in `own`. */
  ghost predicate ClonedParams(orig: seq<Cell>, rank: seq<nat>, cells: seq<Cell>,
                               own: map<string, CellId>, params: map<string, CellId>, done: set<string>)
    requires Ranked(orig, rank) && MapIn(own, |orig|)
  {
    forall k :: k in done ==> k in own && k in params && Cloning.CloneOf(orig, rank, cells, params[k], own[k])
  }

  /** One more clone, taken after the others into a store that keeps them, extends the cloned names by one. */
  lemma ClonedParamsStep(orig: seq<Cell>, rank: seq<nat>, cells: seq<Cell>, cells': seq<Cell>,
                         own: map<string, CellId>, params: map<string, CellId>, done: set<string>, k: string, c: CellId)
    requires Ranked(orig, rank) && MapIn(own, |orig|) && |cells| <= |cells'|
    requires forall i :: |orig| <= i < |cells| ==> cells'[i] == cells[i]
    requires ClonedParams(orig, rank, cells, own, params, done)
    requires k in own && Cloning.CloneOf(orig, rank, cells', c, own[k])
    ensures ClonedParams(orig, rank, cells', own, params[k := c], done + {k})
  {
    forall j | j in done
      ensures Cloning.CloneOf(orig, rank, cells', params[j], own[j])
    {
      Cloning.CloneOfGrows(orig, rank, cells, cells', params[j], own[j]);
    }
  }

  /**
   * One step of the first loop keeps every name already handled pointing at
   * its clone: with no cell under two names, the two entries written for `k`
   * touch no other name's cells.
   */
  lemma SharedCloneStep(own: map<string, CellId>, inh: map<string, CellId>, conv: Conversion,
                        params: map<string, CellId>, done: set<string>, k: string, c: CellId)
    requires Unshared(own, inh) && k in own && k in inh && k !in done
    requires forall j :: j in inh ==> j in params
    requires forall j :: j in done ==> j in own && j in inh
    requires forall j :: j in done ==>
      && own[j] in conv && conv[own[j]] == params[j]
      && inh[j] in conv && conv[inh[j]] == params[j]
    ensures forall j :: j in done + {k} ==>
      && own[j] in conv[inh[k] := c][own[k] := c] && conv[inh[k] := c][own[k] := c][own[j]] == params[k := c][j]
      && inh[j] in conv[inh[k] := c][own[k] := c] && conv[inh[k] := c][own[k] := c][inh[j]] == params[k := c][j]
  {
    forall j | j in done
      ensures own[j] != own[k] && own[j] != inh[k] && inh[j] != own[k] && inh[j] != inh[k]
    {
    }
  }

  /**
   * The second loop, over the node's names: each the chain does not have
   * gets a clone of the node's cell, registered for that cell.
   */
  method OwnOnlyParams(store: GroupStore, own: map<string, CellId>, inh: map<string, CellId>,
                       params0: map<string, CellId>, conv0: Conversion)
    returns (params: map<string, CellId>, conv: Conversion)
    requires store.Valid() && MapIn(own, |store.cells.cells|) && ImagesIn(conv0, |store.cells.cells|)
    requires forall k :: k in params0 <==> k in inh
    requires forall k :: k in inh && k in own ==> params0[k] < |store.cells.cells|
    modifies store`rank, store.cells
    ensures store.Valid() && Cloning.Extends(old(store.cells.cells), old(store.rank), store.cells.cells, store.rank)
    ensures ImagesIn(conv, |store.cells.cells|)
    ensures params.Keys == inh.Keys + own.Keys
    ensures forall k :: k in inh ==> params[k] == params0[k]
    ensures forall k :: k in own && k !in inh ==>
      Cloning.CloneOf(old(store.cells.cells), old(store.rank), store.cells.cells, params[k], own[k])
    ensures forall k1, k2 :: k1 in own && k1 !in inh && k2 in own && params[k1] == params[k2] ==> k1 == k2
    ensures Unshared(own, inh) ==> forall k :: k in own && k !in inh ==> own[k] in conv && conv[own[k]] == params[k]
    ensures forall x :: x in conv0 && !(exists k :: k in own && k !in inh && own[k] == x) ==>
      x in conv && conv[x] == conv0[x]
  {
    ghost var orig, rank0 := store.cells.cells, store.rank;
    params, conv := params0, conv0;
    ghost var origin: map<CellId, string> := map[];
    ghost var done: set<string> := {};
    var keys := own.Keys;
    OwnOnlyStart(orig, rank0, own, inh, params0, conv0);
    while keys != {}
      invariant store.Valid() && Cloning.Extends(orig, rank0, store.cells.cells, store.rank)
      invariant OwnOnlyLoop(orig, rank0, store.cells.cells, own, inh, params0, conv0, keys, done, params, conv, origin)
      decreases keys
    {
      var k :| k in keys;
      params, conv, origin, done := OwnOnlyNext(store, own, inh, params0, conv0, k, keys, params, conv, origin, done, orig, rank0);
      keys := keys - {k};
    }
    OwnOnlyDone(orig, rank0, store.cells.cells, own, inh, params0, conv0, done, params, conv, origin);
  }

  /** Before the second loop: every name of the node still to visit, nothing cloned. */
  lemma OwnOnlyStart(orig: seq<Cell>, rank: seq<nat>, own: map<string, CellId>, inh: map<string, CellId>,
                     params0: map<string, CellId>, conv0: Conversion)
    requires Ranked(orig, rank) && MapIn(own, |orig|) && ImagesIn(conv0, |orig|)
    ensures OwnOnlyLoop(orig, rank, orig, own, inh, params0, conv0, own.Keys, {}, params0, conv0, map[])
  {
  }

  /** The body of the second loop for the name `k`: cloned and registered when the chain does not have it. */
  method OwnOnlyNext(store: GroupStore, own: map<string, CellId>, inh: map<string, CellId>,
                     params0: map<string, CellId>, conv0: Conversion, k: string, keys: set<string>,
                     params: map<string, CellId>, conv: Conversion, ghost origin: map<CellId, string>, ghost done: set<string>,
                     ghost orig: seq<Cell>, ghost rank0: seq<nat>)
    returns (params': map<string, CellId>, conv': Conversion, ghost origin': map<CellId, string>, ghost done': set<string>)
    requires k in keys && store.Valid() && Ranked(orig, rank0) && MapIn(own, |orig|)
    requires Cloning.Extends(orig, rank0, store.cells.cells, store.rank) && forall j :: j in params0 <==> j in inh
    requires OwnOnlyLoop(orig, rank0, store.cells.cells, own, inh, params0, conv0, keys, done, params, conv, origin)
    modifies store`rank, store.cells
    ensures store.Valid() && Cloning.Extends(orig, rank0, store.cells.cells, store.rank)
    ensures OwnOnlyLoop(orig, rank0, store.cells.cells, own, inh, params0, conv0, keys - {k}, done', params', conv', origin')
    ensures k in inh ==> params' == params && conv' == conv
    ensures k !in inh ==> Cloning.CloneOf(orig, rank0, store.cells.cells, params'[k], own[k])
  {
    params', conv', origin', done' := params, conv, origin, done;
    if k !in inh {
      ghost var before := store.cells.cells;
      var c := store.CloneParam(own[k], orig, rank0);
      OwnOnlyStep(orig, rank0, before, store.cells.cells, own, inh, params0, conv0, keys, done, params, conv, origin, k, c);
      conv' := conv[own[k] := c];
      params' := params[k := c];
      origin' := origin[c := k];
      done' := done + {k};
    }
  }

  /** After the second loop: what `OwnOnlyParams` ensures, from what the loop kept. */
  lemma OwnOnlyDone(orig: seq<Cell>, rank: seq<nat>, cells: seq<Cell>, own: map<string, CellId>, inh: map<string, CellId>,
                    params0: map<string, CellId>, conv0: Conversion, done: set<string>,
                    params: map<string, CellId>, conv: Conversion, origin: map<CellId, string>)
    requires Ranked(orig, rank) && MapIn(own, |orig|) && forall k :: k in params0 <==> k in inh
    requires forall k :: k in inh && k in own ==> params0[k] < |orig|
    requires OwnOnlyLoop(orig, rank, cells, own, inh, params0, conv0, {}, done, params, conv, origin)
    ensures ImagesIn(conv, |cells|)
    ensures params.Keys == inh.Keys + own.Keys
    ensures forall k :: k in inh ==> params[k] == params0[k]
    ensures forall k :: k in own && k !in inh ==> Cloning.CloneOf(orig, rank, cells, params[k], own[k])
    ensures forall k1, k2 :: k1 in own && k1 !in inh && k2 in own && params[k1] == params[k2] ==> k1 == k2
    ensures Unshared(own, inh) ==> forall k :: k in own && k !in inh ==> own[k] in conv && conv[own[k]] == params[k]
    ensures forall x :: x in conv0 && !(exists k :: k in own && k !in inh && own[k] == x) ==>
      x in conv && conv[x] == conv0[x]
  {
    forall k1, k2 | k1 in done && k2 in own && k2 in inh
      ensures params[k1] != params[k2]
    {
      assert Cloning.CloneOf(orig, rank, cells, params[k1], own[k1]);
      assert params[k2] == params0[k2];
    }
    forall k1, k2 | k1 in own && k1 !in inh && k2 in own && params[k1] == params[k2]
      ensures k1 == k2
    {
      assert k1 in done;
      assert k2 !in inh ==> k2 in done;
    }
  }

  /** What the second loop keeps, with `keys` the names still to visit and `done` the names cloned so far. */
  ghost predicate OwnOnlyLoop(orig: seq<Cell>, rank: seq<nat>, cells: seq<Cell>,
                              own: map<string, CellId>, inh: map<string, CellId>,
                              params0: map<string, CellId>, conv0: Conversion, keys: set<string>, done: set<string>,
                              params: map<string, CellId>, conv: Conversion, origin: map<CellId, string>)
    requires Ranked(orig, rank) && MapIn(own, |orig|)
  {
    && keys <= own.Keys
    && ImagesIn(conv, |cells|)
    && (forall k :: k in done <==> k in own && k !in keys && k !in inh)
    && (forall k :: k in params <==> k in params0 || k in done)
    && (forall k :: k in params0 ==> params[k] == params0[k])
    && ClonedParams(orig, rank, cells, own, params, done)
    && (forall k :: k in done ==> params[k] in origin && origin[params[k]] == k)
    && (forall x :: x in origin ==> x < |cells|)
    && (forall x :: x in conv0 && !(exists k :: k in own && k !in inh && own[k] == x) ==> x in conv && conv[x] == conv0[x])
    && (Unshared(own, inh) ==> forall k :: k in done ==> own[k] in conv && conv[own[k]] == params[k])
  }

  /** A step of the second loop that clones the cell of `k` into `c` keeps what the loop keeps. */
  lemma OwnOnlyStep(orig: seq<Cell>, rank: seq<nat>, before: seq<Cell>, cells: seq<Cell>,
                    own: map<string, CellId>, inh: map<string, CellId>,
                    params0: map<string, CellId>, conv0: Conversion, keys: set<string>, done: set<string>,
                    params: map<string, CellId>, conv: Conversion, origin: map<CellId, string>, k: string, c: CellId)
    requires Ranked(orig, rank) && MapIn(own, |orig|) && |before| <= |cells|
    requires forall i :: |orig| <= i < |before| ==> cells[i] == before[i]
    requires OwnOnlyLoop(orig, rank, before, own, inh, params0, conv0, keys, done, params, conv, origin)
    requires k in keys && k !in inh && (forall j :: j in params0 <==> j in inh)
    requires Cloning.CloneOf(orig, rank, cells, c, own[k]) && |before| <= c
    ensures OwnOnlyLoop(orig, rank, cells, own, inh, params0, conv0, keys - {k}, done + {k},
                        params[k := c], conv[own[k] := c], origin[c := k])
  {
    ClonedParamsStep(orig, rank, before, cells, own, params, done, k, c);
  }
}
