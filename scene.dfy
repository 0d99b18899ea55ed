/**
 * The prototypes as objects: cloning a prototype, the parameter lookup
 * that materialises an inherited cell, and the recursive flattening of a
 * prototype into a `Flat` tree, all over one arena of prototypes and one
 * store of animation groups and cells.
 */
module Scenes {
  import opened Wrappers
  import opened Cells
  import opened Retarget
  import opened Groups
  import opened Prototypes
  import Cloning

  // ----- Growing the group store -----

  /** `b` keeps the first `|a|` groups of `a` as they are. */
  predicate Extends(a: seq<Group>, b: seq<Group>)
  {
    |a| <= |b| && forall i :: 0 <= i < |a| ==> b[i] == a[i]
  }

  /** `b` keeps the names of the first `|a|` groups of `a`. */
  predicate NamesKept(a: seq<Group>, b: seq<Group>)
  {
    |a| <= |b| && forall i :: 0 <= i < |a| ==> b[i].name == a[i].name
  }

  /** Group `a[i]` carries the name of group `b[i]`, for every `i`. */
  predicate SameNames(gs: seq<Group>, a: seq<GroupId>, b: seq<GroupId>)
  {
    |a| == |b| && forall i :: 0 <= i < |a| ==> a[i] < |gs| && b[i] < |gs| && gs[a[i]].name == gs[b[i]].name
  }

  /** Every group of a flat tree in `lo..hi` means every group `MoveTargets` visits is. */
  lemma {:induction false} FlatGroupsWithin(f: Flat, lo: nat, hi: nat)
    requires FlatWithin(f, lo, hi)
    ensures forall i :: 0 <= i < |FlatGroups(f)| ==> lo <= FlatGroups(f)[i] < hi
    decreases f, 1
  {
    ChildGroupsWithin(f.container, |f.container|, lo, hi);
  }

  /** The same for the first `k` children. */
  lemma {:induction false} ChildGroupsWithin(cs: seq<Flat>, k: nat, lo: nat, hi: nat)
    requires k <= |cs| && forall i :: 0 <= i < |cs| ==> FlatWithin(cs[i], lo, hi)
    ensures forall i :: 0 <= i < |ChildGroups(cs, k)| ==> lo <= ChildGroups(cs, k)[i] < hi
    decreases cs, 0, k
  {
    if k > 0 {
      ChildGroupsWithin(cs, k - 1, lo, hi);
      FlatGroupsWithin(cs[k - 1], lo, hi);
    }
  }

  /** Moving groups at `lo` or above leaves the groups below `lo` as they are and keeps every name. */
  lemma MoveAllAbove(gs: seq<Group>, ids: seq<GroupId>, conv: Conversion, anims: map<GroupId, GroupId>, lo: nat)
    requires lo <= |gs| && forall i :: 0 <= i < |ids| ==> lo <= ids[i]
    ensures NamesKept(gs, MoveAll(gs, ids, conv, anims))
    ensures forall i :: 0 <= i < lo ==> MoveAll(gs, ids, conv, anims)[i] == gs[i]
  {
    MoveAllKeeps(gs, ids, conv, anims);
  }

  // ----- What flattening produces -----

  /**
   * What the private `Flatten` leaves in a flat for prototype `p`: the
   * parameter names of the whole chain, one group per group of the chain
   * carrying its name, and one flattened child per child of the chain.
   */
  ghost predicate Body(protos: seq<Proto>, gs: seq<Group>, p: ProtoId, f: Flat)
    requires Ordered(protos) && p < |protos|
    decreases p, 0
  {
    var kids := ChainChildren(protos, p);
    && f.parameter.Keys == ChainKeys(protos, p)
    && SameNames(gs, f.animations, ChainAnims(protos, p))
    && |f.container| == |kids|
    && forall i :: 0 <= i < |kids| ==> Shaped(protos, gs, kids[i], f.container[i])
  }

  /** What the public `Flatten` returns for `p`: the body, `p`'s name and the chain's render name or the default. */
  ghost predicate Shaped(protos: seq<Proto>, gs: seq<Group>, p: ProtoId, f: Flat)
    requires Ordered(protos) && p < |protos|
    decreases p, 1
  {
    && f.name == protos[p].name
    && f.renderName == Some(ChainRender(protos, p).GetOr(DefaultRenderName))
    && Body(protos, gs, p, f)
  }

  /** A flattened body stays one as the store grows with its names kept. */
  lemma {:induction false} BodyGrown(protos: seq<Proto>, gs: seq<Group>, gs': seq<Group>, p: ProtoId, f: Flat)
    requires Ordered(protos) && p < |protos| && Body(protos, gs, p, f) && NamesKept(gs, gs')
    ensures Body(protos, gs', p, f)
    decreases p
  {
    var kids := ChainChildren(protos, p);
    forall i | 0 <= i < |kids|
      ensures Shaped(protos, gs', kids[i], f.container[i])
    {
      BodyGrown(protos, gs, gs', kids[i], f.container[i]);
    }
  }

  /** Flattened children `fs` of the prototypes `cs`. */
  ghost predicate Kids(protos: seq<Proto>, gs: seq<Group>, cs: seq<ProtoId>, fs: seq<Flat>)
    requires Ordered(protos) && forall i :: 0 <= i < |cs| ==> cs[i] < |protos|
  {
    |fs| == |cs| && forall i :: 0 <= i < |cs| ==> Shaped(protos, gs, cs[i], fs[i])
  }

  /** Flattened children stay so as the store grows with its names kept. */
  lemma KidsGrown(protos: seq<Proto>, gs: seq<Group>, gs': seq<Group>, cs: seq<ProtoId>, fs: seq<Flat>)
    requires Ordered(protos) && forall i :: 0 <= i < |cs| ==> cs[i] < |protos|
    requires Kids(protos, gs, cs, fs) && NamesKept(gs, gs')
    ensures Kids(protos, gs', cs, fs)
  {
    forall i | 0 <= i < |cs|
      ensures Shaped(protos, gs', cs[i], fs[i])
    {
      BodyGrown(protos, gs, gs', cs[i], fs[i]);
    }
  }

  /** The base's flattened children followed by the node's own are the flattened children of the chain. */
  lemma ChildrenCompose(protos: seq<Proto>, gs: seq<Group>, p: ProtoId, base: seq<Flat>, fs: seq<Flat>)
    requires Ordered(protos) && p < |protos| && Below(protos[p], p)
    requires protos[p].base.Some? ==> Kids(protos, gs, ChainChildren(protos, protos[p].base.value), base)
    requires protos[p].base.None? ==> base == []
    requires Kids(protos, gs, protos[p].container, fs)
    ensures Kids(protos, gs, ChainChildren(protos, p), base + fs)
  {
    var x := protos[p];
    var bk := if x.base.Some? then ChainChildren(protos, x.base.value) else [];
    assert ChainChildren(protos, p) == bk + x.container;
    KidsAppend(protos, gs, bk, x.container, base, fs);
  }

  /** Flattened children of `a` followed by those of `b` are the flattened children of `a + b`. */
  lemma KidsAppend(protos: seq<Proto>, gs: seq<Group>, a: seq<ProtoId>, b: seq<ProtoId>, fa: seq<Flat>, fb: seq<Flat>)
    requires Ordered(protos) && (forall i :: 0 <= i < |a| ==> a[i] < |protos|) && forall i :: 0 <= i < |b| ==> b[i] < |protos|
    requires Kids(protos, gs, a, fa) && Kids(protos, gs, b, fb)
    ensures Kids(protos, gs, a + b, fa + fb)
  {
    forall i | 0 <= i < |a + b|
      ensures Shaped(protos, gs, (a + b)[i], (fa + fb)[i])
    {
      if i < |a| {
        assert (a + b)[i] == a[i] && (fa + fb)[i] == fa[i];
      } else {
        assert (a + b)[i] == b[i - |a|] && (fa + fb)[i] == fb[i - |a|];
      }
    }
  }

  /** The base's group clones followed by the node's own carry the names of the chain's groups. */
  lemma AnimsCompose(protos: seq<Proto>, gs: seq<Group>, p: ProtoId, base: seq<GroupId>, ids: seq<GroupId>)
    requires Ordered(protos) && p < |protos|
    requires protos[p].base.Some? ==> SameNames(gs, base, ChainAnims(protos, protos[p].base.value))
    requires protos[p].base.None? ==> base == []
    requires SameNames(gs, ids, protos[p].animations)
    ensures SameNames(gs, base + ids, ChainAnims(protos, p))
  {
    var x := protos[p];
    var anims := ChainAnims(protos, p);
    var nb := |base|;
    forall i | 0 <= i < |base + ids|
      ensures (base + ids)[i] < |gs| && anims[i] < |gs| && gs[(base + ids)[i]].name == gs[anims[i]].name
    {
      if i >= nb {
        assert anims[i] == x.animations[i - nb] && (base + ids)[i] == ids[i - nb];
      } else {
        assert anims[i] == ChainAnims(protos, x.base.value)[i] && (base + ids)[i] == base[i];
      }
    }
  }

  /**
   * The steps of the private `Flatten` add up to its body: the base's
   * body, then the node's own children, the parameters of both, and the
   * clones of the node's own groups.
   */
  lemma BodyCompose(protos: seq<Proto>, gs: seq<Group>, p: ProtoId, fb: Flat, fs: seq<Flat>,
                    params: map<string, CellId>, ids: seq<GroupId>, render: Option<string>, name: Option<string>)
    requires Ordered(protos) && p < |protos|
    requires protos[p].base.Some? ==> Body(protos, gs, protos[p].base.value, fb)
    requires protos[p].base.None? ==> fb.container == [] && fb.animations == [] && fb.parameter == map[]
    requires Below(protos[p], p) && Kids(protos, gs, protos[p].container, fs)
    requires params.Keys == fb.parameter.Keys + protos[p].parameter.Keys
    requires SameNames(gs, ids, protos[p].animations)
    ensures Body(protos, gs, p, Flat(fb.container + fs, fb.animations + ids, params, render, name))
  {
    ChildrenCompose(protos, gs, p, fb.container, fs);
    AnimsCompose(protos, gs, p, fb.animations, ids);
  }

  /**
   * The body `AddOwn` assembles: the base's body and the node's children,
   * flattened against the store before the clones, with the clones of the
   * node's own groups appended.
   */
  lemma OwnBody(protos: seq<Proto>, gs: seq<Group>, gs': seq<Group>, p: ProtoId, fb: Flat, fs: seq<Flat>,
                ids: seq<GroupId>, flat: Flat)
    requires Ordered(protos) && p < |protos| && Below(protos[p], p)
    requires protos[p].base.Some? ==> Body(protos, gs, protos[p].base.value, fb)
    requires protos[p].base.None? ==> fb.container == [] && fb.animations == [] && fb.parameter == map[]
    requires Kids(protos, gs, protos[p].container, fs)
    requires Extends(gs, gs') && SameNames(gs', ids, protos[p].animations)
    requires flat.container == fb.container + fs && flat.animations == fb.animations + ids
    requires flat.parameter.Keys == fb.parameter.Keys + protos[p].parameter.Keys
    ensures Body(protos, gs', p, flat)
  {
    var x := protos[p];
    if x.base.Some? {
      BodyGrown(protos, gs, gs', x.base.value, fb);
    }
    KidsGrown(protos, gs, gs', x.container, fs);
    BodyCompose(protos, gs', p, fb, fs, flat.parameter, ids, flat.renderName, flat.name);
    assert flat == Flat(fb.container + fs, fb.animations + ids, flat.parameter, flat.renderName, flat.name);
  }

  /** The groups of the flat `AddOwn` assembles lie at `n0` or above, below the grown store's end. */
  lemma OwnWithin(fb: Flat, fs: seq<Flat>, ids: seq<GroupId>, n0: nat, n: nat, n': nat, flat: Flat)
    requires n0 <= n <= n'
    requires FlatWithin(fb, n0, n) && forall i :: 0 <= i < |fs| ==> FlatWithin(fs[i], n0, n)
    requires forall i :: 0 <= i < |ids| ==> n <= ids[i] < n'
    requires flat.container == fb.container + fs && flat.animations == fb.animations + ids
    ensures FlatWithin(flat, n0, n')
  {
    FlatWiden(fb, n0, n, n0, n');
    forall i | 0 <= i < |flat.container|
      ensures FlatWithin(flat.container[i], n0, n')
    {
      if i < |fb.container| {
        assert flat.container[i] == fb.container[i];
      } else {
        assert flat.container[i] == fs[i - |fb.container|];
        FlatWiden(fs[i - |fb.container|], n0, n, n0, n');
      }
    }
    forall i | 0 <= i < |flat.animations|
      ensures n0 <= flat.animations[i] < n'
    {
      if i >= |fb.animations| {
        assert flat.animations[i] == ids[i - |fb.animations|];
      }
    }
  }

  // ----- Cloning a prototype's own groups -----

  /** The helper's group map after the first `k` of `own` were cloned to `n`, `n + 1`, ... in order. */
  function RegisterClones(m: map<GroupId, GroupId>, own: seq<GroupId>, n: nat, k: nat): map<GroupId, GroupId>
    requires k <= |own|
  {
    if k == 0 then m else RegisterClones(m, own, n, k - 1)[own[k - 1] := n + k - 1]
  }

  /** Registering one more clone updates the map at that group. */
  lemma RegisterClonesStep(m: map<GroupId, GroupId>, own: seq<GroupId>, n: nat, k: nat,
                           before: map<GroupId, GroupId>, d: GroupId)
    requires k < |own| && before == RegisterClones(m, own, n, k) && d == n + k
    ensures before[own[k] := d] == RegisterClones(m, own, n, k + 1)
  {
  }

  /** Group `g` is among the first `k` of `own`. */
  predicate AmongFirst(own: seq<GroupId>, k: nat, g: GroupId)
    requires k <= |own|
  {
    exists i :: 0 <= i < k && own[i] == g
  }

  /** For one group: it has an entry exactly when it had one or was cloned, and an entry it had and that was not cloned is kept. */
  lemma {:induction false} RegisterClonesAt(m: map<GroupId, GroupId>, own: seq<GroupId>, n: nat, k: nat, g: GroupId)
    requires k <= |own|
    ensures g in RegisterClones(m, own, n, k) <==> g in m || AmongFirst(own, k, g)
    ensures g in m && !AmongFirst(own, k, g) ==> RegisterClones(m, own, n, k)[g] == m[g]
    decreases k
  {
    if k > 0 {
      RegisterClonesAt(m, own, n, k - 1, g);
      if AmongFirst(own, k, g) && g != own[k - 1] {
        var i :| 0 <= i < k && own[i] == g;
        assert AmongFirst(own, k - 1, g);
      }
    }
  }

  /** For one position `i`: its group maps to the clone made at some position holding the same group. */
  lemma {:induction false} RegisterClonesImage(m: map<GroupId, GroupId>, own: seq<GroupId>, n: nat, k: nat, i: nat)
    requires i < k <= |own|
    ensures own[i] in RegisterClones(m, own, n, k)
    ensures exists j :: 0 <= j < k && own[j] == own[i] && RegisterClones(m, own, n, k)[own[i]] == n + j
    decreases k
  {
    if own[i] == own[k - 1] {
      assert RegisterClones(m, own, n, k)[own[i]] == n + (k - 1);
    } else {
      RegisterClonesImage(m, own, n, k - 1, i);
      var j :| 0 <= j < k - 1 && own[j] == own[i] && RegisterClones(m, own, n, k - 1)[own[i]] == n + j;
      assert RegisterClones(m, own, n, k)[own[i]] == n + j;
    }
  }

  /** Every group of `gs` has its cells in a store of `n` cells. */
  ghost predicate AllIn(gs: seq<Group>, n: nat)
  {
    forall g :: 0 <= g < |gs| ==> GroupIn(gs[g], n)
  }

  /** The groups `gs[n..n + k]` are clones, in order, of the groups `gs0[own[..k]]`. */
  ghost predicate ClonedGroups(orig: seq<Cell>, rank: seq<nat>, cells: seq<Cell>,
                               gs0: seq<Group>, own: seq<GroupId>, gs: seq<Group>, n: nat, k: nat)
    requires Ranked(orig, rank) && AllIn(gs0, |orig|) && k <= |own|
    requires forall i :: 0 <= i < |own| ==> own[i] < |gs0|
  {
    n + k <= |gs| && forall j :: 0 <= j < k ==> GroupCloneOf(orig, rank, cells, gs0[own[j]], gs[n + j])
  }

  /** One more group clone, taken into a store that keeps the earlier ones, extends the clones by one. */
  lemma ClonedGroupsStep(orig: seq<Cell>, rank: seq<nat>, before: seq<Cell>, rankb: seq<nat>, cells: seq<Cell>,
                         gs0: seq<Group>, own: seq<GroupId>, gs: seq<Group>, gs': seq<Group>, n: nat, k: nat)
    requires Ranked(orig, rank) && Ranked(before, rankb) && Cloning.Extends(orig, rank, before, rankb)
    requires |before| <= |cells| && forall i :: 0 <= i < |before| ==> cells[i] == before[i]
    requires AllIn(gs0, |orig|) && k < |own| && forall i :: 0 <= i < |own| ==> own[i] < |gs0|
    requires ClonedGroups(orig, rank, before, gs0, own, gs, n, k) && |gs| == n + k
    requires |gs'| == |gs| + 1 && gs'[..|gs|] == gs && GroupCloneOf(before, rankb, cells, gs0[own[k]], gs'[|gs|])
    ensures ClonedGroups(orig, rank, cells, gs0, own, gs', n, k + 1)
  {
    forall j | 0 <= j < k
      ensures GroupCloneOf(orig, rank, cells, gs0[own[j]], gs'[n + j])
    {
      assert gs'[n + j] == gs[n + j];
      GroupCloneOfGrows(orig, rank, before, cells, gs0[own[j]], gs[n + j]);
    }
    GroupCloneOfBase(orig, rank, before, rankb, cells, gs0[own[k]], gs'[|gs|]);
  }

  /** The clones `ClonedGroups` speaks of, read at their identities. */
  lemma ClonedGroupsAt(orig: seq<Cell>, rank: seq<nat>, cells: seq<Cell>,
                       gs0: seq<Group>, own: seq<GroupId>, gs: seq<Group>, n: nat, ids: seq<GroupId>)
    requires Ranked(orig, rank) && AllIn(gs0, |orig|) && forall i :: 0 <= i < |own| ==> own[i] < |gs0|
    requires ClonedGroups(orig, rank, cells, gs0, own, gs, n, |own|)
    requires |ids| == |own| && forall i :: 0 <= i < |own| ==> ids[i] == n + i
    ensures forall i :: 0 <= i < |own| ==> ids[i] < |gs| && GroupCloneOf(orig, rank, cells, gs0[own[i]], gs[ids[i]])
    ensures Extends(gs0, gs) ==> SameNames(gs, ids, own)
  {
    if Extends(gs0, gs) {
      forall j | 0 <= j < |own|
        ensures ids[j] < |gs| && gs[ids[j]].name == gs[own[j]].name
      {
        assert GroupCloneOf(orig, rank, cells, gs0[own[j]], gs[ids[j]]);
      }
    }
  }

  /**
   * The loop of the private `Flatten` over the node's groups: each is
   * cloned at the end of the store and registered in the helper as the
   * image of its original.
   */
  method CloneOwnGroups(store: GroupStore, helper: Helper, own: seq<GroupId>)
    returns (ids: seq<GroupId>)
    requires store.Valid() && forall i :: 0 <= i < |own| ==> own[i] < |store.groups|
    modifies store, store.cells, helper
    ensures store.Valid() && helper.conversion == old(helper.conversion)
    ensures ClonedAll(old(store.cells.cells), old(store.rank), old(store.groups), own, old(helper.animations),
                      store.cells.cells, store.rank, store.groups, helper.animations, ids)
  {
    ids := [];
    ghost var n, gs0 := |store.groups|, store.groups;
    ghost var orig, rank0, m0 := store.cells.cells, store.rank, helper.animations;
    CloneLoopStart(store.cells.cells, store.rank, store.groups, own, helper.animations);
    var i := 0;
    while i < |own|
      invariant 0 <= i <= |own| && store.Valid() && helper.conversion == old(helper.conversion)
      invariant CloneLoop(orig, rank0, gs0, own, n, m0, store.cells.cells, store.rank, store.groups, helper.animations, i, ids)
    {
      ids := CloneNext(store, helper, own, i, ids, n, gs0, orig, rank0, m0);
      i := i + 1;
    }
    CloneLoopDone(orig, rank0, gs0, own, n, m0, store.cells.cells, store.rank, store.groups, helper.animations, ids);
  }

  /**
   * What the loop of `CloneOwnGroups` keeps after cloning the first `i`
   * groups of `own` from the groups `gs0` and cells `orig` it started with:
   * the clones at `n..n + i`, their ids, the store extended and the group
   * map registering each.
   */
  ghost predicate CloneLoop(orig: seq<Cell>, rank0: seq<nat>, gs0: seq<Group>, own: seq<GroupId>, n: nat,
                            m0: map<GroupId, GroupId>, cells: seq<Cell>, rank: seq<nat>, gs: seq<Group>,
                            anims: map<GroupId, GroupId>, i: nat, ids: seq<GroupId>)
  {
    && Ranked(orig, rank0) && AllIn(gs0, |orig|) && (forall j :: 0 <= j < |own| ==> own[j] < |gs0|)
    && i <= |own| && |ids| == i && |gs| == n + i && n == |gs0|
    && (forall j :: 0 <= j < i ==> ids[j] == n + j)
    && Cloning.Extends(orig, rank0, cells, rank) && Extends(gs0, gs)
    && ClonedGroups(orig, rank0, cells, gs0, own, gs, n, i)
    && anims == RegisterClones(m0, own, n, i)
  }

  /** Before the loop of `CloneOwnGroups`: nothing cloned yet. */
  lemma CloneLoopStart(cells: seq<Cell>, rank: seq<nat>, gs: seq<Group>, own: seq<GroupId>, m: map<GroupId, GroupId>)
    requires Ranked(cells, rank) && forall g :: 0 <= g < |gs| ==> GroupIn(gs[g], |cells|)
    requires forall i :: 0 <= i < |own| ==> own[i] < |gs|
    ensures CloneLoop(cells, rank, gs, own, |gs|, m, cells, rank, gs, m, 0, [])
  {
  }

  /**
   * What cloning the groups `own` of `gs0` leaves: the cells `orig` extended,
   * one new group per group of `own`, at `|gs0|`, `|gs0| + 1`, ... in order,
   * each a clone of its original carrying its name, the groups before them
   * kept, and the group map registering each clone as the image of its
   * original.
   */
  ghost predicate ClonedAll(orig: seq<Cell>, rank0: seq<nat>, gs0: seq<Group>, own: seq<GroupId>, m0: map<GroupId, GroupId>,
                            cells: seq<Cell>, rank: seq<nat>, gs: seq<Group>, anims: map<GroupId, GroupId>, ids: seq<GroupId>)
  {
    && Ranked(orig, rank0) && AllIn(gs0, |orig|) && (forall i :: 0 <= i < |own| ==> own[i] < |gs0|)
    && Cloning.Extends(orig, rank0, cells, rank)
    && |ids| == |own| && |gs| == |gs0| + |own| && Extends(gs0, gs)
    && (forall i :: 0 <= i < |own| ==> ids[i] == |gs0| + i)
    && (forall i :: 0 <= i < |own| ==> GroupCloneOf(orig, rank0, cells, gs0[own[i]], gs[ids[i]]))
    && anims == RegisterClones(m0, own, |gs0|, |own|)
    && SameNames(gs, ids, own)
  }

  /** The loop of `CloneOwnGroups` done: what the loop kept is what it ensures. */
  lemma CloneLoopDone(orig: seq<Cell>, rank0: seq<nat>, gs0: seq<Group>, own: seq<GroupId>, n: nat,
                      m0: map<GroupId, GroupId>, cells: seq<Cell>, rank: seq<nat>, gs: seq<Group>,
                      anims: map<GroupId, GroupId>, ids: seq<GroupId>)
    requires CloneLoop(orig, rank0, gs0, own, n, m0, cells, rank, gs, anims, |own|, ids)
    ensures ClonedAll(orig, rank0, gs0, own, m0, cells, rank, gs, anims, ids)
  {
    ClonedGroupsAt(orig, rank0, cells, gs0, own, gs, n, ids);
  }

  /** The body of that loop: the next group cloned and registered, the loop's facts carried one step further. */
  method CloneNext(store: GroupStore, helper: Helper, own: seq<GroupId>, i: nat, ids: seq<GroupId>,
                   ghost n: nat, ghost gs0: seq<Group>, ghost orig: seq<Cell>, ghost rank0: seq<nat>,
                   ghost m0: map<GroupId, GroupId>)
    returns (ids': seq<GroupId>)
    requires i < |own| && store.Valid()
    requires CloneLoop(orig, rank0, gs0, own, n, m0, store.cells.cells, store.rank, store.groups, helper.animations, i, ids)
    modifies store, store.cells, helper
    ensures ids' == ids + [n + i] && store.Valid() && helper.conversion == old(helper.conversion)
    ensures CloneLoop(orig, rank0, gs0, own, n, m0, store.cells.cells, store.rank, store.groups, helper.animations, i + 1, ids')
  {
    ghost var before, rankb, gs, anims := store.cells.cells, store.rank, store.groups, helper.animations;
    assert Ranked(before, rankb) && GroupIn(gs[own[i]], |before|);
    var d := CloneRegister(store, helper, own[i]);
    CloneLoopStep(orig, rank0, gs0, own, n, m0, before, rankb, gs, anims, i, ids, store.cells.cells, store.rank, store.groups, d);
    ids' := ids + [d];
  }

  /** A clone of the next group of `own`, appended at `d`, carries what the loop of `CloneOwnGroups` keeps one group further. */
  lemma CloneLoopStep(orig: seq<Cell>, rank0: seq<nat>, gs0: seq<Group>, own: seq<GroupId>, n: nat, m0: map<GroupId, GroupId>,
                      before: seq<Cell>, rankb: seq<nat>, gs: seq<Group>, anims: map<GroupId, GroupId>, i: nat, ids: seq<GroupId>,
                      cells: seq<Cell>, rank: seq<nat>, gs': seq<Group>, d: GroupId)
    requires i < |own| && CloneLoop(orig, rank0, gs0, own, n, m0, before, rankb, gs, anims, i, ids)
    requires Ranked(before, rankb) && Cloning.Extends(before, rankb, cells, rank)
    requires own[i] < |gs| && GroupIn(gs[own[i]], |before|)
    requires d == |gs| && |gs'| == d + 1 && gs' == gs + [gs'[d]]
    requires GroupCloneOf(before, rankb, cells, gs[own[i]], gs'[d])
    ensures CloneLoop(orig, rank0, gs0, own, n, m0, cells, rank, gs', anims[own[i] := d], i + 1, ids + [d])
  {
    assert gs[own[i]] == gs0[own[i]] && gs'[..|gs|] == gs;
    ClonedGroupsStep(orig, rank0, before, rankb, cells, gs0, own, gs, gs', n, i);
    RegisterClonesStep(m0, own, n, i, anims, d);
    Cloning.ExtendsTransitive(orig, rank0, before, rankb, cells, rank);
  }

  /** One step of that loop: group `g` cloned at the end of the store and the clone registered as its image. */
  method CloneRegister(store: GroupStore, helper: Helper, g: GroupId) returns (d: GroupId)
    requires store.Valid() && g < |store.groups|
    modifies store, store.cells, helper
    ensures store.Valid() && Cloning.Extends(old(store.cells.cells), old(store.rank), store.cells.cells, store.rank)
    ensures d == old(|store.groups|) && |store.groups| == d + 1 && store.groups == old(store.groups) + [store.groups[d]]
    ensures GroupCloneOf(old(store.cells.cells), old(store.rank), store.cells.cells, old(store.groups)[g], store.groups[d])
    ensures helper.conversion == old(helper.conversion)
    ensures helper.animations == old(helper.animations)[g := d]
  {
    d := store.Clone(g);
    helper.animations := helper.animations[g := d];
  }

  // ----- Prototypes that agree below a point -----

  /** `a` and `b` hold the same first `n` prototypes. */
  predicate Agree(a: seq<Proto>, b: seq<Proto>, n: nat)
  {
    n <= |a| && n <= |b| && forall i :: 0 <= i < n ==> a[i] == b[i]
  }

  /** Everything read along the chain of `p` depends only on the prototypes up to `p`. */
  lemma {:induction false} ChainAgree(a: seq<Proto>, b: seq<Proto>, p: ProtoId)
    requires Ordered(a) && Ordered(b) && p < |a| && p < |b| && Agree(a, b, p + 1)
    ensures ChainKeys(a, p) == ChainKeys(b, p) && ChainAnims(a, p) == ChainAnims(b, p)
    ensures ChainRender(a, p) == ChainRender(b, p) && ChainChildren(a, p) == ChainChildren(b, p)
    ensures forall name :: LookupParameter(a, p, name) == LookupParameter(b, p, name)
    decreases p
  {
    assert Below(a[p], p);
    if a[p].base.Some? {
      ChainAgree(a, b, a[p].base.value);
    }
  }

  /** The prototype `Clone` makes of `x`, stored at `p`: its name and renderer, inheriting from `p`, nothing of its own. */
  function CloneProto(x: Proto, p: ProtoId): Proto
  {
    Proto(x.name, Some(p), [], x.renderElement, None, [], map[])
  }

  /**
   * A clone sees what its original sees: the same parameter names and
   * lookups, groups, children and render name along its chain.
   */
  lemma CloneInherits(protos: seq<Proto>, p: ProtoId)
    requires Ordered(protos) && p < |protos|
    ensures var c := protos + [CloneProto(protos[p], p)]; var q := |protos|;
      && Ordered(c)
      && ChainKeys(c, q) == ChainKeys(protos, p)
      && ChainAnims(c, q) == ChainAnims(protos, p)
      && ChainChildren(c, q) == ChainChildren(protos, p)
      && ChainRender(c, q) == ChainRender(protos, p)
      && forall name :: LookupParameter(c, q, name) == LookupParameter(protos, p, name)
  {
    var c := protos + [CloneProto(protos[p], p)];
    assert Ordered(c) by {
      forall i | 0 <= i < |c|
        ensures Below(c[i], i)
      {
        if i < |protos| {
          assert c[i] == protos[i];
        }
      }
    }
    ChainAgree(protos, c, p);
  }

  // ----- What flattening promises about cells and references -----

  /**
   * Each parameter cell of a flat for `p` is a clone, taken after `orig`,
   * of the cell the lookup finds for its name on `p`'s chain.
   */
  ghost predicate ParamsCloned(orig: seq<Cell>, rank: seq<nat>, cells: seq<Cell>,
                               protos: seq<Proto>, p: ProtoId, params: map<string, CellId>)
    requires Ordered(protos) && p < |protos| && Ranked(orig, rank)
  {
    forall k :: k in params ==>
      var c := LookupParameter(protos, p, k);
      c.Some? && c.value < |orig| && Cloning.CloneOf(orig, rank, cells, params[k], c.value)
  }

  /** Appending cells keeps a flat's parameters clones. */
  lemma ParamsClonedGrows(orig: seq<Cell>, rank: seq<nat>, cells: seq<Cell>, cells': seq<Cell>,
                          protos: seq<Proto>, p: ProtoId, params: map<string, CellId>)
    requires Ordered(protos) && p < |protos| && Ranked(orig, rank)
    requires |cells| <= |cells'| && forall i :: 0 <= i < |cells| ==> cells'[i] == cells[i]
    requires ParamsCloned(orig, rank, cells, protos, p, params)
    ensures ParamsCloned(orig, rank, cells', protos, p, params)
  {
    forall k | k in params
      ensures Cloning.CloneOf(orig, rank, cells', params[k], LookupParameter(protos, p, k).value)
    {
      Cloning.CloneOfGrows(orig, rank, cells, cells', params[k], LookupParameter(protos, p, k).value);
    }
  }

  /**
   * The parameter loops complete the base's parameters to the node's: a
   * name the node declares maps to a clone of the node's cell, any other
   * keeps the base's clone of the cell the base looks up.
   */
  lemma ParamsCompose(orig: seq<Cell>, rank: seq<nat>, mid: seq<Cell>, rankm: seq<nat>, cells: seq<Cell>, cells': seq<Cell>,
                      protos: seq<Proto>, p: ProtoId, fbp: map<string, CellId>, params: map<string, CellId>)
    requires Ordered(protos) && p < |protos| && Below(protos[p], p)
    requires Ranked(orig, rank) && Ranked(mid, rankm) && Cloning.Extends(orig, rank, mid, rankm) && ParamsIn(protos, |orig|)
    requires |mid| <= |cells| <= |cells'| && forall i :: 0 <= i < |cells| ==> cells'[i] == cells[i]
    requires forall i :: 0 <= i < |mid| ==> cells[i] == mid[i]
    requires protos[p].base.Some? ==> ParamsCloned(orig, rank, mid, protos, protos[p].base.value, fbp)
    requires protos[p].base.None? ==> fbp == map[]
    requires params.Keys == fbp.Keys + protos[p].parameter.Keys
    requires forall k :: k in fbp && k !in protos[p].parameter ==> params[k] == fbp[k]
    requires forall k :: k in protos[p].parameter ==> Cloning.CloneOf(mid, rankm, cells, params[k], protos[p].parameter[k])
    ensures ParamsCloned(orig, rank, cells', protos, p, params)
  {
    var x := protos[p];
    forall k | k in params
      ensures var c := LookupParameter(protos, p, k);
        c.Some? && c.value < |orig| && Cloning.CloneOf(orig, rank, cells', params[k], c.value)
    {
      if k in x.parameter {
        assert x.parameter[k] < |orig|;
        Cloning.CloneOfBase(orig, rank, mid, rankm, cells, params[k], x.parameter[k]);
        Cloning.CloneOfGrows(orig, rank, cells, cells', params[k], x.parameter[k]);
      } else {
        var c := LookupParameter(protos, x.base.value, k).value;
        Cloning.CloneOfGrows(orig, rank, mid, cells', params[k], c);
      }
    }
  }

  /**
   * Every group of the flat tree `f` is stored and redirected: none of its
   * references is left pointing at an original the helper maps.
   */
  ghost predicate FlatRedirected(gs: seq<Group>, f: Flat, conv: Conversion, anims: map<GroupId, GroupId>)
  {
    forall i :: 0 <= i < |FlatGroups(f)| ==> FlatGroups(f)[i] < |gs| && Redirected(gs[FlatGroups(f)[i]], conv, anims)
  }

  // ----- The prototypes as objects -----

  /**
   * Every `PrototypeBase` object, as an arena indexed by `ProtoId`, and the
   * store holding their groups and cells.
   */
  class Scene {
    var protos: seq<Proto>
    const store: GroupStore

    /** Bases and children come first, and every prototype's groups and parameter cells are stored. */
    ghost predicate Valid()
      reads this, store, store.cells
    {
      Ordered(protos) && GroupsIn(protos, |store.groups|) && store.Valid() && ParamsIn(protos, |store.cells.cells|)
    }

    constructor (store: GroupStore)
      requires store.Valid()
      ensures Valid() && protos == [] && this.store == store
    {
      protos := [];
      this.store := store;
    }

    /** `new PrototypeBase()`: no name, no base, no children, groups or parameters. */
    method New() returns (p: ProtoId)
      requires Valid()
      modifies this
      ensures Valid() && p == |old(protos)| && protos == old(protos) + [Proto(None, None, [], None, None, [], map[])]
    {
      p := |protos|;
      protos := protos + [Proto(None, None, [], None, None, [], map[])];
      assert forall i :: 0 <= i < p ==> protos[i] == old(protos)[i];
    }

    /** `Clone`: a new prototype inheriting from `p`, with `p`'s name and renderer. */
    method Clone(p: ProtoId) returns (q: ProtoId)
      requires Valid() && p < |protos|
      modifies this
      ensures Valid() && q == |old(protos)| && protos == old(protos) + [CloneProto(old(protos)[p], p)]
    {
      CloneInherits(protos, p);
      q := |protos|;
      protos := protos + [CloneProto(protos[p], p)];
    }

    /**
     * `GetParameter`: the node's own cell under `name`; else, when the base
     * chain has one, a clone of it, stored as the node's own; else null.
     */
    method GetParameter(p: ProtoId, name: string) returns (r: Option<CellId>)
      requires Valid() && p < |protos|
      modifies this, store`rank, store.cells
      ensures Valid() && |protos| == |old(protos)| && store.groups == old(store.groups)
      ensures Cloning.Extends(old(store.cells.cells), old(store.rank), store.cells.cells, store.rank)
      ensures r.Some? <==> name in ChainKeys(old(protos), p)
      ensures r == LookupParameter(protos, p, name)
      ensures name in old(protos)[p].parameter || r.None? ==>
        protos == old(protos) && store.cells.cells == old(store.cells.cells)
      ensures name !in old(protos)[p].parameter && r.Some? ==>
        && protos == old(protos)[p := old(protos)[p].(parameter := old(protos)[p].parameter[name := r.value])]
        && LookupParameter(old(protos), p, name).Some?
        && LookupParameter(old(protos), p, name).value < old(|store.cells.cells|)
        && Cloning.CloneOf(old(store.cells.cells), old(store.rank), store.cells.cells, r.value,
                           LookupParameter(old(protos), p, name).value)
      ensures forall other :: other != name ==> LookupParameter(protos, p, other) == LookupParameter(old(protos), p, other)
    {
      var x := protos[p];
      assert Below(x, p);
      LookupParameterFinds(protos, p, name);
      if name in x.parameter {
        r := Some(x.parameter[name]);
        return;
      }
      var inherited := if x.base.Some? then LookupParameter(protos, x.base.value, name) else None;
      if inherited.Some? {
        LookupParameterIn(protos, x.base.value, name, |store.cells.cells|);
        var c := store.CloneParam(inherited.value, store.cells.cells, store.rank);
        ghost var before := protos;
        protos := protos[p := x.(parameter := x.parameter[name := c])];
        assert Ordered(protos) by {
          forall i | 0 <= i < |protos|
            ensures Below(protos[i], i)
          {
            if i != p {
              assert protos[i] == before[i];
            }
          }
        }
        if x.base.Some? {
          ChainAgree(before, protos, x.base.value);
        }
        r := Some(c);
      } else {
        r := None;
      }
    }

    /** The public `Flatten()`: a fresh helper, then `Flatten(helper)`. */
    method Flatten(p: ProtoId) returns (flat: Flat)
      requires Valid() && p < |protos|
      modifies store, store.cells
      ensures Valid() && Extends(old(store.groups), store.groups)
      ensures Cloning.Extends(old(store.cells.cells), old(store.rank), store.cells.cells, store.rank)
      ensures Shaped(protos, store.groups, p, flat)
      ensures FlatWithin(flat, old(|store.groups|), |store.groups|)
      ensures ParamsCloned(old(store.cells.cells), old(store.rank), store.cells.cells, protos, p, flat.parameter)
    {
      var helper := new Helper();
      flat := FlattenWith(p, helper);
    }

    /**
     * `Flatten(helper)`: the private `Flatten` into a new flat, then the
     * default render name when none was set, and `p`'s name.
     */
    method FlattenWith(p: ProtoId, helper: Helper) returns (flat: Flat)
      requires Valid() && p < |protos| && ImagesIn(helper.conversion, |store.cells.cells|)
      modifies store, store.cells, helper
      ensures Valid() && Extends(old(store.groups), store.groups)
      ensures Cloning.Extends(old(store.cells.cells), old(store.rank), store.cells.cells, store.rank)
      ensures ImagesIn(helper.conversion, |store.cells.cells|)
      ensures Shaped(protos, store.groups, p, flat)
      ensures FlatWithin(flat, old(|store.groups|), |store.groups|)
      ensures ParamsCloned(old(store.cells.cells), old(store.rank), store.cells.cells, protos, p, flat.parameter)
      ensures ImagesNotKeys(helper.conversion) && GroupImagesNotKeys(helper.animations) ==>
        FlatRedirected(store.groups, flat, helper.conversion, helper.animations)
      decreases p, 2
    {
      flat := FlattenInto(p, helper);
      ghost var f0 := flat;
      if flat.renderName.None? {
        flat := flat.(renderName := Some(DefaultRenderName));
      }
      flat := flat.(name := protos[p].name);
      assert FlatGroups(flat) == FlatGroups(f0);
    }

    /**
     * The private `Flatten(flat, helper)`: the base flattened into the same
     * flat, then the node's children, parameters and groups added, every
     * group of the flat redirected, and the node's render name set.
     */
    method FlattenInto(p: ProtoId, helper: Helper) returns (flat: Flat)
      requires Valid() && p < |protos| && ImagesIn(helper.conversion, |store.cells.cells|)
      modifies store, store.cells, helper
      ensures Valid() && Extends(old(store.groups), store.groups)
      ensures Cloning.Extends(old(store.cells.cells), old(store.rank), store.cells.cells, store.rank)
      ensures ImagesIn(helper.conversion, |store.cells.cells|)
      ensures Body(protos, store.groups, p, flat) && flat.renderName == ChainRender(protos, p) && flat.name == None
      ensures FlatWithin(flat, old(|store.groups|), |store.groups|)
      ensures ParamsCloned(old(store.cells.cells), old(store.rank), store.cells.cells, protos, p, flat.parameter)
      ensures ImagesNotKeys(helper.conversion) && GroupImagesNotKeys(helper.animations) ==>
        FlatRedirected(store.groups, flat, helper.conversion, helper.animations)
      decreases p, 1
    {
      var x := protos[p];
      assert Below(x, p);
      ghost var n0 := |store.groups|;
      ghost var orig, rank0 := store.cells.cells, store.rank;
      if x.base.Some? {
        flat := FlattenInto(x.base.value, helper);
      } else {
        flat := EmptyFlat;
      }
      ghost var gs1, cells1 := store.groups, store.cells.cells;
      var fs := FlattenChildren(p, helper);
      if x.base.Some? {
        BodyGrown(protos, gs1, store.groups, x.base.value, flat);
        ParamsClonedGrows(orig, rank0, cells1, store.cells.cells, protos, x.base.value, flat.parameter);
      }
      FlatWiden(flat, n0, |gs1|, n0, |store.groups|);
      forall i | 0 <= i < |fs|
        ensures FlatWithin(fs[i], n0, |store.groups|)
      {
        FlatWiden(fs[i], |gs1|, |store.groups|, n0, |store.groups|);
      }
      flat := AddOwn(p, helper, flat, fs, n0, orig, rank0);
      flat := Redirect(p, helper, flat, n0);
    }

    /**
     * The middle of the private `Flatten`: the node's children appended,
     * its parameters registered and its groups cloned, giving the node's
     * body with every new group in `n0..` and every parameter a clone taken
     * after `orig`.
     */
    method AddOwn(p: ProtoId, helper: Helper, fb: Flat, fs: seq<Flat>, ghost n0: nat, ghost orig: seq<Cell>, ghost rank0: seq<nat>)
      returns (flat: Flat)
      requires Valid() && p < |protos| && Below(protos[p], p)
      requires Ranked(orig, rank0) && Cloning.Extends(orig, rank0, store.cells.cells, store.rank) && ParamsIn(protos, |orig|)
      requires ImagesIn(helper.conversion, |store.cells.cells|)
      requires n0 <= |store.groups|
      requires protos[p].base.Some? ==> Body(protos, store.groups, protos[p].base.value, fb)
      requires protos[p].base.Some? ==> ParamsCloned(orig, rank0, store.cells.cells, protos, protos[p].base.value, fb.parameter)
      requires protos[p].base.None? ==> fb.container == [] && fb.animations == [] && fb.parameter == map[]
      requires Kids(protos, store.groups, protos[p].container, fs)
      requires FlatWithin(fb, n0, |store.groups|) && forall i :: 0 <= i < |fs| ==> FlatWithin(fs[i], n0, |store.groups|)
      modifies store, store.cells, helper
      ensures Valid() && Extends(old(store.groups), store.groups)
      ensures Cloning.Extends(old(store.cells.cells), old(store.rank), store.cells.cells, store.rank)
      ensures ImagesIn(helper.conversion, |store.cells.cells|)
      ensures Body(protos, store.groups, p, flat) && flat.renderName == fb.renderName && flat.name == fb.name
      ensures FlatWithin(flat, n0, |store.groups|)
      ensures ParamsCloned(orig, rank0, store.cells.cells, protos, p, flat.parameter)
    {
      var x := protos[p];
      ghost var gs2, cells2, rank2 := store.groups, store.cells.cells, store.rank;
      var params := RegisterParams(store, helper, x.parameter, fb.parameter);
      ghost var cells3, rank3 := store.cells.cells, store.rank;
      var ids := CloneOwnGroups(store, helper, x.animations);
      ghost var gs3, cells4, rank4 := store.groups, store.cells.cells, store.rank;
      Cloning.ExtendsTransitive(cells2, rank2, cells3, rank3, cells4, rank4);
      ParamsCompose(orig, rank0, cells2, rank2, cells3, cells4, protos, p, fb.parameter, params);
      flat := Flat(fb.container + fs, fb.animations + ids, params, fb.renderName, fb.name);
      OwnBody(protos, gs2, gs3, p, fb, fs, ids, flat);
      OwnWithin(fb, fs, ids, n0, |gs2|, |gs3|, flat);
    }

    /**
     * The end of the private `Flatten`: `MoveTargets` over the flat's
     * groups, which all lie at `n0` or above, and the node's render name.
     */
    method Redirect(p: ProtoId, helper: Helper, f: Flat, ghost n0: nat) returns (flat: Flat)
      requires Valid() && p < |protos| && Body(protos, store.groups, p, f) && ImagesIn(helper.conversion, |store.cells.cells|)
      requires n0 <= |store.groups| && FlatWithin(f, n0, |store.groups|)
      modifies store`groups
      ensures Valid() && NamesKept(old(store.groups), store.groups) && |store.groups| == old(|store.groups|)
      ensures forall i :: 0 <= i < n0 ==> store.groups[i] == old(store.groups)[i]
      ensures store.groups == MoveAll(old(store.groups), FlatGroups(f), helper.conversion, helper.animations)
      ensures Body(protos, store.groups, p, flat) && FlatWithin(flat, n0, |store.groups|)
      ensures flat == f.(renderName := if protos[p].renderName.Some? then protos[p].renderName else f.renderName)
      ensures ImagesNotKeys(helper.conversion) && GroupImagesNotKeys(helper.animations) ==>
        FlatRedirected(store.groups, flat, helper.conversion, helper.animations)
    {
      ghost var gs3 := store.groups;
      FlatGroupsWithin(f, n0, |gs3|);
      FlatWiden(f, n0, |gs3|, 0, |gs3|);
      MoveAllAbove(gs3, FlatGroups(f), helper.conversion, helper.animations, n0);
      MoveFlat(store, helper.conversion, helper.animations, f);
      BodyGrown(protos, gs3, store.groups, p, f);
      if ImagesNotKeys(helper.conversion) && GroupImagesNotKeys(helper.animations) {
        MoveAllRedirects(gs3, FlatGroups(f), helper.conversion, helper.animations);
      }
      flat := f;
      if protos[p].renderName.Some? {
        flat := flat.(renderName := protos[p].renderName);
      }
      assert FlatGroups(flat) == FlatGroups(f);
    }

    /** The children of the private `Flatten`: each flattened with a helper of its own, imported afterwards. */
    method FlattenChildren(p: ProtoId, helper: Helper) returns (fs: seq<Flat>)
      requires Valid() && p < |protos| && ImagesIn(helper.conversion, |store.cells.cells|)
      modifies store, store.cells, helper
      ensures Valid() && Extends(old(store.groups), store.groups)
      ensures Cloning.Extends(old(store.cells.cells), old(store.rank), store.cells.cells, store.rank)
      ensures ImagesIn(helper.conversion, |store.cells.cells|)
      ensures Below(protos[p], p) && Kids(protos, store.groups, protos[p].container, fs)
      ensures forall i :: 0 <= i < |fs| ==> FlatWithin(fs[i], old(|store.groups|), |store.groups|)
      decreases p, 0
    {
      var cs := protos[p].container;
      assert Below(protos[p], p);
      ghost var orig, rank0 := store.cells.cells, store.rank;
      fs := [];
      var i := 0;
      while i < |cs|
        invariant 0 <= i <= |cs| && |fs| == i
        invariant Valid() && Extends(old(store.groups), store.groups)
        invariant Cloning.Extends(orig, rank0, store.cells.cells, store.rank)
        invariant ImagesIn(helper.conversion, |store.cells.cells|)
        invariant forall j :: 0 <= j < i ==> Shaped(protos, store.groups, cs[j], fs[j])
        invariant forall j :: 0 <= j < i ==> FlatWithin(fs[j], old(|store.groups|), |store.groups|)
      {
        ghost var gs, cells, rank := store.groups, store.cells.cells, store.rank;
        var h := new Helper();
        var f := FlattenWith(cs[i], h);
        helper.Import(h);
        Cloning.ExtendsTransitive(orig, rank0, cells, rank, store.cells.cells, store.rank);
        forall j | 0 <= j < i
          ensures Shaped(protos, store.groups, cs[j], fs[j])
          ensures FlatWithin(fs[j], old(|store.groups|), |store.groups|)
        {
          BodyGrown(protos, gs, store.groups, cs[j], fs[j]);
          FlatWiden(fs[j], old(|store.groups|), |gs|, old(|store.groups|), |store.groups|);
        }
        FlatWiden(f, |gs|, |store.groups|, old(|store.groups|), |store.groups|);
        fs := fs + [f];
        i := i + 1;
      }
    }
  }
}
