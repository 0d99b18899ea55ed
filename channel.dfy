/**
 * `DisplayChannel`: the loaded objects, statuses and registered groups of
 * one user interface, and the lock that keeps them from being changed
 * while the interface shows the channel.  The lock is Unused, Used or in
 * Cooldown; leaving Used starts a one-second cooldown timer, which unlocks
 * the channel only if no other change of `Using` happened in the meantime.
 * Here the timer firing is the event `CooldownElapsed`, carrying the counter value
 * the timer captured.
 */
module Channels {
  import opened Wrappers
  import opened Text
  import opened Statuses
  import opened Groups
  import opened Hooks
  import Prototypes
  import Scenes
  import Runtime

  datatype UseMode = Unused | Used | Cooldown

  /**
   * The lock: the mode, the counter every change of `Using` bumps, and the
   * counters captured by the cooldown timers that have not woken up yet.
   */
  datatype Lock = Lock(mode: UseMode, counter: nat, waiting: seq<nat>)

  /** A new channel's lock. */
  const FreeLock: Lock := Lock(Unused, 0, [])

  /** The waiting counters increase, none exceeds the counter, and the channel cools down exactly while the latest timer waits. */
  predicate LockOk(l: Lock)
  {
    && (forall i, j :: 0 <= i < j < |l.waiting| ==> l.waiting[i] < l.waiting[j])
    && (forall i :: 0 <= i < |l.waiting| ==> l.waiting[i] <= l.counter)
    && (l.mode == Cooldown <==> l.counter in l.waiting)
  }

  /**
   * The `Using` setter. Assigning the current value of `Using` changes
   * nothing; otherwise the counter is bumped and the channel becomes Used,
   * or cools down with a timer waiting on the new counter value.
   */
  function Switched(l: Lock, value: bool): (r: Lock)
    ensures (r.mode == Used) == value
    ensures value == (l.mode == Used) ==> r == l
    ensures value != (l.mode == Used) ==> r.counter == l.counter + 1
    ensures r.mode == Cooldown <==> (l.mode == Cooldown && !value) || (l.mode == Used && !value)
  {
    if value == (l.mode == Used) then l
    else if value then Lock(Used, l.counter + 1, l.waiting)
    else Lock(Cooldown, l.counter + 1, l.waiting + [l.counter + 1])
  }

  /** The cooldown timer at position `k` of the waiting ones wakes up: it unlocks only if its counter is still the latest. */
  function Woken(l: Lock, k: nat): (r: Lock)
    requires k < |l.waiting|
    ensures r.counter == l.counter && |r.waiting| == |l.waiting| - 1
    ensures r.mode == (if l.waiting[k] == l.counter then Unused else l.mode)
  {
    Lock(if l.waiting[k] == l.counter then Unused else l.mode, l.counter, l.waiting[..k] + l.waiting[k + 1..])
  }

  /** The setter keeps the lock consistent. */
  lemma SwitchedOk(l: Lock, value: bool)
    requires LockOk(l)
    ensures LockOk(Switched(l, value))
  {
  }

  /** Every waiting counter but the last is below the counter. */
  lemma BelowLatest(l: Lock)
    requires LockOk(l)
    ensures forall i :: 0 <= i < |l.waiting| - 1 ==> l.waiting[i] < l.counter
  {
    if |l.waiting| > 0 {
      var last := |l.waiting| - 1;
      assert forall i :: 0 <= i < last ==> l.waiting[i] < l.waiting[last];
    }
  }

  /** Dropping position `k` shifts every later counter one place down. */
  lemma RemovedAt(w: seq<nat>, k: nat)
    requires k < |w|
    ensures |w[..k] + w[k + 1..]| == |w| - 1
    ensures forall i :: 0 <= i < k ==> (w[..k] + w[k + 1..])[i] == w[i]
    ensures forall i :: k < i < |w| ==> (w[..k] + w[k + 1..])[i - 1] == w[i]
  {
  }

  /** A timer waking up keeps the lock consistent. */
  lemma {:induction false} WokenOk(l: Lock, k: nat)
    requires LockOk(l) && k < |l.waiting|
    ensures LockOk(Woken(l, k))
  {
    RemovedOrdered(l, k);
    RemovedBounded(l, k);
    WokenMode(l, k);
  }

  /** Dropping one waiting counter keeps the others at most the counter. */
  lemma RemovedBounded(l: Lock, k: nat)
    requires LockOk(l) && k < |l.waiting|
    ensures var w := l.waiting[..k] + l.waiting[k + 1..];
      forall i :: 0 <= i < |w| ==> w[i] <= l.counter
  {
    RemovedAt(l.waiting, k);
  }

  /** After a timer wakes up, the channel cools down exactly while the latest timer still waits. */
  lemma WokenMode(l: Lock, k: nat)
    requires LockOk(l) && k < |l.waiting|
    ensures Woken(l, k).mode == Cooldown <==> l.counter in Woken(l, k).waiting
  {
    if l.waiting[k] == l.counter {
      LatestRemoved(l, k);
    } else {
      OtherRemoved(l.waiting, k, l.counter);
    }
  }

  /** When the latest timer wakes up, no waiting counter is the latest any more. */
  lemma LatestRemoved(l: Lock, k: nat)
    requires LockOk(l) && k < |l.waiting| && l.waiting[k] == l.counter
    ensures l.counter !in l.waiting[..k] + l.waiting[k + 1..]
  {
    BelowLatest(l);
    assert k == |l.waiting| - 1;
    assert l.waiting[..k] + l.waiting[k + 1..] == l.waiting[..k];
  }

  /** Dropping a position that does not hold `x` keeps `x` in the sequence or out of it. */
  lemma OtherRemoved(ws: seq<nat>, k: nat, x: nat)
    requires k < |ws| && ws[k] != x
    ensures x in ws[..k] + ws[k + 1..] <==> x in ws
  {
    var w := ws[..k] + ws[k + 1..];
    RemovedAt(ws, k);
    if x in w {
      var i :| 0 <= i < |w| && w[i] == x;
      assert ws[if i < k then i else i + 1] == x;
    }
    if x in ws {
      var j :| 0 <= j < |ws| && ws[j] == x;
      assert w[if j < k then j else j - 1] == x;
    }
  }

  /** Dropping one waiting counter keeps the others increasing. */
  lemma RemovedOrdered(l: Lock, k: nat)
    requires LockOk(l) && k < |l.waiting|
    ensures var w := l.waiting[..k] + l.waiting[k + 1..];
      forall i, j :: 0 <= i < j < |w| ==> w[i] < w[j]
  {
    var w := l.waiting[..k] + l.waiting[k + 1..];
    RemovedAt(l.waiting, k);
    forall i, j | 0 <= i < j < |w|
      ensures w[i] < w[j]
    {
      var i', j' := if i < k then i else i + 1, if j < k then j else j + 1;
      assert l.waiting[i'] < l.waiting[j'];
    }
  }

  /**
   * Only the timer of the latest change unlocks the channel: a timer whose
   * counter was overtaken by another change of `Using` leaves the mode as
   * it is.
   */
  lemma {:induction false} OnlyLatestUnlocks(l: Lock, k: nat)
    requires LockOk(l) && k < |l.waiting| && l.mode != Unused
    ensures Woken(l, k).mode == Unused <==> l.mode == Cooldown && l.waiting[k] == l.counter
  {
    if l.waiting[k] == l.counter {
      assert l.counter in l.waiting;
    }
  }

  /** A cooling channel has the timer that will unlock it waiting. */
  lemma {:induction false} CooldownEnds(l: Lock)
    requires LockOk(l) && l.mode == Cooldown
    ensures exists k :: 0 <= k < |l.waiting| && Woken(l, k).mode == Unused
  {
    var k :| 0 <= k < |l.waiting| && l.waiting[k] == l.counter;
    assert Woken(l, k).mode == Unused;
  }

  /** Once every timer has woken up, the channel is not cooling down. */
  lemma {:induction false} NoTaskNoCooldown(l: Lock)
    requires LockOk(l) && l.waiting == []
    ensures l.mode != Cooldown
  {
  }

  /**
   * Leaving Used and then letting the cooldown timer wake up, with no other
   * change in between, unlocks the channel; turning `Using` on again before
   * the timer wakes up keeps the channel locked when it does.
   */
  lemma {:induction false} CooldownRace(l: Lock)
    requires LockOk(l) && l.mode == Used
    ensures var c := Switched(l, false);
      && c.mode == Cooldown && Woken(c, |c.waiting| - 1).mode == Unused
    ensures var c := Switched(Switched(l, false), true);
      && c.mode == Used && Woken(c, |c.waiting| - 1).mode == Used
  {
  }

  // ----- Registration -----

  /** Every group of `ids` is one of the first `n`. */
  predicate IdsBelow(ids: seq<GroupId>, n: nat)
  {
    forall i :: 0 <= i < |ids| ==> ids[i] < n
  }

  /** Hooking a group changes only hooks, so every AfterAnimation still waits for a group of the store. */
  lemma HookedTargets(gs: seq<Group>, g: GroupId)
    requires Runtime.TargetsIn(gs) && g < |gs|
    ensures Runtime.TargetsIn(Hooked(gs, gs[g].activations, g, |gs[g].activations|))
  {
    var r := Hooked(gs, gs[g].activations, g, |gs[g].activations|);
    forall t | 0 <= t < |gs|
      ensures r[t].activations == gs[t].activations
    {
      HookedAt(gs, gs[g].activations, g, |gs[g].activations|, t);
    }
  }

  /** Unhooking a group changes only hooks as well. */
  lemma UnhookedTargets(gs: seq<Group>, g: GroupId)
    requires Runtime.TargetsIn(gs) && g < |gs|
    ensures Runtime.TargetsIn(Unhooked(gs, gs[g].activations, g, |gs[g].activations|))
  {
    UnhookedValidShape(gs, g);
  }

  lemma UnhookedValidShape(gs: seq<Group>, g: GroupId)
    requires Runtime.TargetsIn(gs) && g < |gs|
    ensures forall t :: 0 <= t < |gs| ==>
      Unhooked(gs, gs[g].activations, g, |gs[g].activations|)[t].activations == gs[t].activations
  {
    var acts := gs[g].activations;
    forall t | 0 <= t < |gs|
      ensures Unhooked(gs, acts, g, |acts|)[t].activations == gs[t].activations
    {
      UnhookedShape(gs, acts, g, |acts|, t);
    }
  }

  lemma {:induction false} UnhookedShape(gs: seq<Group>, acts: seq<Activation>, g: GroupId, k: nat, t: GroupId)
    requires k <= |acts| && TargetsBelow(acts, |gs|) && t < |gs|
    ensures Unhooked(gs, acts, g, k)[t].activations == gs[t].activations
  {
    if k > 0 {
      UnhookedShape(gs, acts, g, k - 1, t);
    }
  }

  /**
   * `DisplayChannel.Register` on an unused channel: a group not registered
   * yet is appended and hooks its AfterAnimation activations on their
   * targets; a registered one changes nothing.
   */
  function Registered(anims: seq<GroupId>, gs: seq<Group>, g: GroupId): (r: (seq<GroupId>, seq<Group>))
    requires Runtime.TargetsIn(gs) && g < |gs|
    ensures |r.1| == |gs| && Runtime.TargetsIn(r.1)
    ensures g in r.0 && (forall x :: x in r.0 <==> x in anims || x == g)
    ensures g in anims ==> r == (anims, gs)
  {
    if g in anims then (anims, gs)
    else
      HookedTargets(gs, g);
      (anims + [g], Hooked(gs, gs[g].activations, g, |gs[g].activations|))
  }

  /** `DisplayChannel.UnRegister` on an unused channel: the group is removed and every AfterAnimation of it unhooks itself. */
  function Unregistered(anims: seq<GroupId>, gs: seq<Group>, g: GroupId): (r: (seq<GroupId>, seq<Group>))
    requires Runtime.TargetsIn(gs) && g < |gs|
    ensures |r.1| == |gs| && Runtime.TargetsIn(r.1)
  {
    UnhookedTargets(gs, g);
    (RemoveFirst(anims, g), Unhooked(gs, gs[g].activations, g, |gs[g].activations|))
  }

  /** Registering a new group and unregistering it again restores the registrations and the hooks. */
  lemma RegisterUndone(anims: seq<GroupId>, gs: seq<Group>, g: GroupId)
    requires Runtime.TargetsIn(gs) && g < |gs| && g !in anims && NoHooksOf(gs, g)
    ensures var r := Registered(anims, gs, g); Unregistered(r.0, r.1, g) == (anims, gs)
  {
    var acts := gs[g].activations;
    var r := Registered(anims, gs, g);
    assert r == (anims + [g], Hooked(gs, acts, g, |acts|));
    HookedAt(gs, acts, g, |acts|, g);
    assert r.1[g].activations == acts;
    UnhookUndoesHook(gs, acts, g);
    RemoveFirstAppend(anims, [g], g);
    assert RemoveFirst([g], g) == [];
    assert anims + [] == anims;
    assert Unhooked(r.1, acts, g, |acts|) == gs;
    assert RemoveFirst(anims + [g], g) == anims;
    assert Unregistered(r.0, r.1, g) == (RemoveFirst(anims + [g], g), Unhooked(r.1, acts, g, |acts|));
  }

  /** Registering the groups `ids` one after the other. */
  function RegisterAll(anims: seq<GroupId>, gs: seq<Group>, ids: seq<GroupId>): (r: (seq<GroupId>, seq<Group>))
    requires Runtime.TargetsIn(gs) && IdsBelow(ids, |gs|)
    ensures |r.1| == |gs| && Runtime.TargetsIn(r.1)
    decreases |ids|
  {
    if |ids| == 0 then (anims, gs)
    else
      var p := RegisterAll(anims, gs, ids[..|ids| - 1]);
      Registered(p.0, p.1, ids[|ids| - 1])
  }

  /** Registering `a + b` is registering `a`, then `b`. */
  lemma {:induction false} RegisterAllAppend(anims: seq<GroupId>, gs: seq<Group>, a: seq<GroupId>, b: seq<GroupId>)
    requires Runtime.TargetsIn(gs) && IdsBelow(a, |gs|) && IdsBelow(b, |gs|)
    ensures IdsBelow(a + b, |gs|)
    ensures var p := RegisterAll(anims, gs, a); RegisterAll(anims, gs, a + b) == RegisterAll(p.0, p.1, b)
    decreases |b|
  {
    if |b| > 0 {
      var b' := b[..|b| - 1];
      assert (a + b)[..|a + b| - 1] == a + b';
      assert (a + b)[|a + b| - 1] == b[|b| - 1];
      RegisterAllAppend(anims, gs, a, b');
      var p := RegisterAll(anims, gs, a);
      var q := RegisterAll(anims, gs, a + b');
      assert RegisterAll(anims, gs, a + b) == Registered(q.0, q.1, b[|b| - 1]);
      assert RegisterAll(p.0, p.1, b) == Registered(RegisterAll(p.0, p.1, b').0, RegisterAll(p.0, p.1, b').1, b[|b| - 1]);
    } else {
      assert a + b == a;
    }
  }

  /**
   * Registering keeps the registered groups in the store and free of
   * duplicates, keeps every hook valid, keeps the earlier registrations in
   * front, and registers exactly the earlier groups and `ids`.
   */
  lemma {:induction false} RegisterAllMeaning(anims: seq<GroupId>, gs: seq<Group>, ids: seq<GroupId>)
    requires Runtime.TargetsIn(gs) && IdsBelow(ids, |gs|) && Runtime.AnimsOk(anims, |gs|) && HooksValid(gs)
    ensures var r := RegisterAll(anims, gs, ids);
      && Runtime.AnimsOk(r.0, |gs|) && HooksValid(r.1)
      && |anims| <= |r.0| && r.0[..|anims|] == anims
      && forall x :: x in r.0 <==> x in anims || x in ids
    decreases |ids|
  {
    if |ids| > 0 {
      var pre := ids[..|ids| - 1];
      var g := ids[|ids| - 1];
      RegisterAllMeaning(anims, gs, pre);
      var p := RegisterAll(anims, gs, pre);
      if g !in p.0 {
        HookedValid(p.1, g, |p.1[g].activations|);
        assert (p.0 + [g])[..|anims|] == p.0[..|anims|];
      }
      assert forall x :: x in ids <==> x in pre || x == g by {
        assert ids == pre + [g];
      }
    }
  }

  // ----- The order in which an imported object registers its groups -----

  /** `LoadAnimations`: the groups of the children's trees, in order, then the object's own groups. */
  function LoadOrder(f: Prototypes.Flat): seq<GroupId>
    decreases f, 1
  {
    LoadChildren(f.container, |f.container|) + f.animations
  }

  /** The groups of the first `k` children's trees, in order. */
  function LoadChildren(cs: seq<Prototypes.Flat>, k: nat): seq<GroupId>
    requires k <= |cs|
    decreases cs, 0, k
  {
    if k == 0 then [] else LoadChildren(cs, k - 1) + LoadOrder(cs[k - 1])
  }

  /** Loading registers exactly the groups of the tree, each as often as the tree holds it, only in another order. */
  lemma {:induction false} LoadOrderPermutes(f: Prototypes.Flat)
    ensures multiset(LoadOrder(f)) == multiset(Prototypes.FlatGroups(f))
    decreases f, 1
  {
    LoadChildrenPermutes(f.container, |f.container|);
  }

  lemma {:induction false} LoadChildrenPermutes(cs: seq<Prototypes.Flat>, k: nat)
    requires k <= |cs|
    ensures multiset(LoadChildren(cs, k)) == multiset(Prototypes.ChildGroups(cs, k))
    decreases cs, 0, k
  {
    if k > 0 {
      LoadChildrenPermutes(cs, k - 1);
      LoadOrderPermutes(cs[k - 1]);
      assert LoadChildren(cs, k) == LoadChildren(cs, k - 1) + LoadOrder(cs[k - 1]);
      assert Prototypes.ChildGroups(cs, k) == Prototypes.ChildGroups(cs, k - 1) + Prototypes.FlatGroups(cs[k - 1]);
    }
  }

  /** The groups of a tree within the store are what `LoadAnimations` registers. */
  lemma LoadOrderBelow(f: Prototypes.Flat, n: nat)
    requires Prototypes.FlatWithin(f, 0, n)
    ensures IdsBelow(LoadOrder(f), n)
  {
    LoadOrderPermutes(f);
    Scenes.FlatGroupsWithin(f, 0, n);
    forall i | 0 <= i < |LoadOrder(f)|
      ensures LoadOrder(f)[i] < n
    {
      assert LoadOrder(f)[i] in multiset(Prototypes.FlatGroups(f));
    }
  }

  lemma LoadChildrenBelow(cs: seq<Prototypes.Flat>, k: nat, n: nat)
    requires k <= |cs| && forall i :: 0 <= i < |cs| ==> Prototypes.FlatWithin(cs[i], 0, n)
    ensures IdsBelow(LoadChildren(cs, k), n)
  {
    LoadChildrenPermutes(cs, k);
    Scenes.ChildGroupsWithin(cs, k, 0, n);
    forall i | 0 <= i < |LoadChildren(cs, k)|
      ensures LoadChildren(cs, k)[i] < n
    {
      assert LoadChildren(cs, k)[i] in multiset(Prototypes.ChildGroups(cs, k));
    }
  }

  /** Loading child `j` after the children before it is loading the first `j + 1` children. */
  lemma LoadTreeStep(a0: seq<GroupId>, g0: seq<Group>, cs: seq<Prototypes.Flat>, j: nat)
    requires j < |cs| && Runtime.TargetsIn(g0) && forall i :: 0 <= i < |cs| ==> Prototypes.FlatWithin(cs[i], 0, |g0|)
    ensures IdsBelow(LoadChildren(cs, j), |g0|) && IdsBelow(LoadChildren(cs, j + 1), |g0|) && IdsBelow(LoadOrder(cs[j]), |g0|)
    ensures var p := RegisterAll(a0, g0, LoadChildren(cs, j));
      RegisterAll(a0, g0, LoadChildren(cs, j + 1)) == RegisterAll(p.0, p.1, LoadOrder(cs[j]))
  {
    LoadChildrenBelow(cs, j, |g0|);
    LoadOrderBelow(cs[j], |g0|);
    RegisterAllAppend(a0, g0, LoadChildren(cs, j), LoadOrder(cs[j]));
  }

  // ----- Statuses -----

  /** Every status of the map is a root of the catalog. */
  predicate RootsOf(cat: seq<StatusNode>, status: map<string, nat>)
  {
    forall k :: k in status ==> status[k] < |cat| && cat[status[k]].parent.None?
  }

  /** `GetStatus`: null for a null name or an unknown root; otherwise the root's `Find` over the bar-separated parts. */
  function StatusOf(cat: seq<StatusNode>, status: map<string, nat>, fullName: Option<string>): (r: Option<nat>)
    requires Statuses.Valid(cat) && RootsOf(cat, status)
    ensures r.Some? ==> fullName.Some? && r.value < |cat| && Path(cat, r.value) == Split(fullName.value, '|')
  {
    if fullName.None? then None
    else
      var parts := Split(fullName.value, '|');
      if parts[0] !in status then None
      else
        LookupPath(cat, status[parts[0]], parts);
        Lookup(cat, status[parts[0]], parts)
  }

  /** Every name on a path is a name of the catalog. */
  lemma {:induction false} PathNames(cat: seq<StatusNode>, k: nat)
    requires Ordered(cat) && k < |cat|
    ensures forall j :: 0 <= j < |Path(cat, k)| ==> exists m :: 0 <= m < |cat| && Path(cat, k)[j] == cat[m].name
    decreases k
  {
    if cat[k].parent.Some? {
      PathNames(cat, cat[k].parent.value);
    }
  }

  /**
   * Looking up the printed name of a status finds that status, provided
   * its root is listed under the root's name, sibling names are unique and
   * no name holds a bar.
   */
  lemma StatusOfText(cat: seq<StatusNode>, status: map<string, nat>, k: nat)
    requires Statuses.Valid(cat) && UniqueSiblings(cat) && RootsOf(cat, status) && k < |cat|
    requires forall m :: 0 <= m < |cat| ==> '|' !in cat[m].name
    requires var r := Root(cat, k); cat[r].name in status && status[cat[r].name] == r
    ensures StatusOf(cat, status, Some(ToText(cat, k))) == Some(k)
  {
    var r := Root(cat, k);
    ToTextIsJoinedPath(cat, k);
    PathNames(cat, k);
    SplitJoin(Path(cat, k), '|');
    LookupFindsStatus(cat, k);
    AncestorPathPrefix(cat, r, k);
    assert Path(cat, r) == [cat[r].name];
  }

  // ----- The channel -----

  class DisplayChannel {
    const cat: seq<StatusNode>
    const store: GroupStore
    var name: string
    var currentStatus: Option<nat>
    var status: map<string, nat>
    var objects: seq<Prototypes.Flat>
    var animations: seq<GroupId>
    var running: seq<Runtime.Running>
    var useMode: UseMode
    var useCounter: nat
    var waiting: seq<nat>

    /** The lock's state. */
    function CurrentLock(): Lock
      reads this`useMode, this`useCounter, this`waiting
    {
      Lock(useMode, useCounter, waiting)
    }

    /** The statuses are roots of a well-formed catalog, and the lock is consistent. */
    ghost predicate Fixed()
      reads this`status, this`currentStatus, this`useMode, this`useCounter, this`waiting
    {
      Statuses.Valid(cat) && RootsOf(cat, status) && IsRef(cat, currentStatus) && LockOk(CurrentLock())
    }

    /** The registered groups are distinct groups of the store, whose hooks are all valid. */
    ghost predicate Registry()
      reads this`animations, store`groups
    {
      Runtime.TargetsIn(store.groups) && HooksValid(store.groups) && Runtime.AnimsOk(animations, |store.groups|)
    }

    ghost predicate Valid()
      reads this, store
    {
      Fixed() && Registry()
    }

    /** A new channel: no name, no status, no objects, groups or running animations, and unused. */
    constructor (cat: seq<StatusNode>, store: GroupStore)
      requires Statuses.Valid(cat) && Runtime.TargetsIn(store.groups) && HooksValid(store.groups)
      ensures Valid() && this.cat == cat && this.store == store
      ensures name == "" && currentStatus == None && status == map[] && objects == [] && animations == [] && running == []
      ensures CurrentLock() == FreeLock
    {
      this.cat := cat;
      this.store := store;
      name := "";
      currentStatus := None;
      status := map[];
      objects := [];
      animations := [];
      running := [];
      useMode := Unused;
      useCounter := 0;
      waiting := [];
    }

    /** `IsUsed`, `IsCoolDown` and `IsUnused` are tests of the mode; `Using` reads `IsUsed`. */
    predicate IsUnused()
      reads this`useMode
    {
      useMode == Unused
    }

    /** The `Using` setter. */
    method SetUsing(value: bool)
      requires Valid()
      modifies this`useMode, this`useCounter, this`waiting
      ensures CurrentLock() == Switched(old(CurrentLock()), value)
      ensures Valid()
    {
      SwitchedOk(CurrentLock(), value);
      if value == (useMode == Used) {
        return;
      }
      useCounter := useCounter + 1;
      var counter := useCounter;
      if value {
        useMode := Used;
      } else {
        useMode := Cooldown;
        waiting := waiting + [counter];
      }
    }

    /** The cooldown timer at position `k` wakes up, a second after it was started. */
    method CooldownElapsed(k: nat)
      requires Valid() && k < |waiting|
      modifies this`useMode, this`waiting
      ensures CurrentLock() == Woken(old(CurrentLock()), k)
      ensures Valid()
    {
      WokenOk(CurrentLock(), k);
      var counter := waiting[k];
      waiting := waiting[..k] + waiting[k + 1..];
      if counter == useCounter {
        useMode := Unused;
      }
    }

    // ----- `Objects`: the protected view of the loaded objects -----

    /** `IsReadOnly`. */
    predicate IsReadOnly()
      reads this`useMode
    {
      !IsUnused()
    }

    /** The indexer's getter, always allowed. */
    function ObjectAt(index: int): (r: Result<Prototypes.Flat>)
      reads this`objects
      ensures r.Ok? <==> 0 <= index < |objects|
      ensures r.Ok? ==> r.value == objects[index]
      ensures r.Fail? ==> r.fault == ArgumentOutOfRange
    {
      if 0 <= index < |objects| then Ok(objects[index]) else Fail(ArgumentOutOfRange)
    }

    /** `IndexOf`: the first position holding `f`, or -1. */
    function IndexOfObject(f: Prototypes.Flat): (r: int)
      reads this`objects
      ensures -1 <= r < |objects|
      ensures r == -1 <==> f !in objects
      ensures r >= 0 ==> objects[r] == f && f !in objects[..r]
    {
      FirstIndex(objects, f)
    }

    /** The indexer's setter. */
    method SetObject(index: int, f: Prototypes.Flat) returns (r: Result<()>)
      modifies this`objects
      ensures !IsUnused() ==> r == Fail(AccessViolation) && objects == old(objects)
      ensures IsUnused() && !(0 <= index < |old(objects)|) ==> r == Fail(ArgumentOutOfRange) && objects == old(objects)
      ensures IsUnused() && 0 <= index < |old(objects)| ==> r == Ok(()) && objects == old(objects)[index := f]
    {
      if !IsUnused() {
        return Fail(AccessViolation);
      }
      if !(0 <= index < |objects|) {
        return Fail(ArgumentOutOfRange);
      }
      objects := objects[index := f];
      r := Ok(());
    }

    /** `Add`. */
    method AddObject(f: Prototypes.Flat) returns (r: Result<()>)
      modifies this`objects
      ensures !IsUnused() ==> r == Fail(AccessViolation) && objects == old(objects)
      ensures IsUnused() ==> r == Ok(()) && objects == old(objects) + [f]
    {
      if !IsUnused() {
        return Fail(AccessViolation);
      }
      objects := objects + [f];
      r := Ok(());
    }

    /** `Clear`. */
    method ClearObjects() returns (r: Result<()>)
      modifies this`objects
      ensures !IsUnused() ==> r == Fail(AccessViolation) && objects == old(objects)
      ensures IsUnused() ==> r == Ok(()) && objects == []
    {
      if !IsUnused() {
        return Fail(AccessViolation);
      }
      objects := [];
      r := Ok(());
    }

    /** `Insert`: `f` ends up at `index`, the objects from there on move up one. */
    method InsertObject(index: int, f: Prototypes.Flat) returns (r: Result<()>)
      modifies this`objects
      ensures !IsUnused() ==> r == Fail(AccessViolation) && objects == old(objects)
      ensures IsUnused() && !(0 <= index <= |old(objects)|) ==> r == Fail(ArgumentOutOfRange) && objects == old(objects)
      ensures IsUnused() && 0 <= index <= |old(objects)| ==>
        r == Ok(()) && objects == old(objects)[..index] + [f] + old(objects)[index..]
    {
      if !IsUnused() {
        return Fail(AccessViolation);
      }
      if !(0 <= index <= |objects|) {
        return Fail(ArgumentOutOfRange);
      }
      objects := objects[..index] + [f] + objects[index..];
      r := Ok(());
    }

    /** `Remove`: drops the first occurrence of `f` and tells whether there was one. */
    method RemoveObject(f: Prototypes.Flat) returns (r: Result<bool>)
      modifies this`objects
      ensures !IsUnused() ==> r == Fail(AccessViolation) && objects == old(objects)
      ensures IsUnused() ==> r == Ok(f in old(objects)) && objects == RemoveFirst(old(objects), f)
      ensures IsUnused() ==> multiset(objects) == multiset(old(objects)) - multiset{f}
    {
      if !IsUnused() {
        return Fail(AccessViolation);
      }
      RemoveFirstCount(objects, f);
      r := Ok(f in objects);
      objects := RemoveFirst(objects, f);
    }

    /** `RemoveAt`. */
    method RemoveObjectAt(index: int) returns (r: Result<()>)
      modifies this`objects
      ensures !IsUnused() ==> r == Fail(AccessViolation) && objects == old(objects)
      ensures IsUnused() && !(0 <= index < |old(objects)|) ==> r == Fail(ArgumentOutOfRange) && objects == old(objects)
      ensures IsUnused() && 0 <= index < |old(objects)| ==>
        r == Ok(()) && objects == old(objects)[..index] + old(objects)[index + 1..]
    {
      if !IsUnused() {
        return Fail(AccessViolation);
      }
      if !(0 <= index < |objects|) {
        return Fail(ArgumentOutOfRange);
      }
      objects := objects[..index] + objects[index + 1..];
      r := Ok(());
    }

    /** `CopyTo`, always allowed: the objects are copied into `a` from position `at` on. */
    method CopyObjectsTo(a: array<Prototypes.Flat>, at: int) returns (r: Result<()>)
      modifies a
      ensures at < 0 ==> r == Fail(ArgumentOutOfRange) && a[..] == old(a[..])
      ensures at >= 0 && at + |objects| > a.Length ==> r == Fail(Argument) && a[..] == old(a[..])
      ensures at >= 0 && at + |objects| <= a.Length ==>
        && r == Ok(()) && a[at..at + |objects|] == objects
        && a[..at] == old(a[..at]) && a[at + |objects|..] == old(a[at + |objects|..])
    {
      if at < 0 {
        return Fail(ArgumentOutOfRange);
      }
      if at + |objects| > a.Length {
        return Fail(Argument);
      }
      var i := 0;
      while i < |objects|
        invariant 0 <= i <= |objects|
        invariant a[at..at + i] == objects[..i]
        invariant a[..at] == old(a[..at]) && a[at + i..] == old(a[at + i..])
      {
        a[at + i] := objects[i];
        i := i + 1;
      }
      r := Ok(());
    }

    // ----- Statuses -----

    /** `GetStatus`. */
    function GetStatus(fullName: Option<string>): (r: Option<nat>)
      requires Statuses.Valid(cat) && RootsOf(cat, status)
      reads this`status
      ensures fullName.None? ==> r.None?
      ensures r.Some? ==> r.value < |cat| && Path(cat, r.value) == Split(fullName.value, '|')
    {
      StatusOf(cat, status, fullName)
    }

    // ----- Registration and import -----

    /** `Register`. */
    method Register(g: GroupId) returns (r: Result<()>)
      requires Registry() && g < |store.groups|
      modifies this`animations, store`groups
      ensures !IsUnused() ==> r == Fail(AccessViolation) && animations == old(animations) && store.groups == old(store.groups)
      ensures IsUnused() ==> r == Ok(()) && (animations, store.groups) == Registered(old(animations), old(store.groups), g)
      ensures |store.groups| == |old(store.groups)|
      ensures Registry()
    {
      if !IsUnused() {
        return Fail(AccessViolation);
      }
      RegisterAllMeaning(animations, store.groups, [g]);
      assert [g][..0] == [];
      if g !in animations {
        animations := animations + [g];
        HookGroup(store, g);
      }
      r := Ok(());
    }

    /** `UnRegister`: removes the group, then unhooks every AfterAnimation of it, registered or not. */
    method UnRegister(g: GroupId) returns (r: Result<()>)
      requires Registry() && g < |store.groups|
      modifies this`animations, store`groups
      ensures !IsUnused() ==> r == Fail(AccessViolation) && animations == old(animations) && store.groups == old(store.groups)
      ensures IsUnused() ==> r == Ok(()) && (animations, store.groups) == Unregistered(old(animations), old(store.groups), g)
      ensures |store.groups| == |old(store.groups)|
      ensures Registry()
    {
      if !IsUnused() {
        return Fail(AccessViolation);
      }
      Runtime.RemoveFirstKeeps(animations, g, |store.groups|);
      animations := RemoveFirst(animations, g);
      ghost var gs := store.groups;
      UnhookGroup(store, g);
      UnhookedValid(gs, gs[g].activations, g, |gs[g].activations|);
      r := Ok(());
    }

    /** `LoadAnimations`: the children's trees first, then the object's own groups. */
    method LoadAnimations(f: Prototypes.Flat)
      requires Registry() && IsUnused() && Prototypes.FlatWithin(f, 0, |store.groups|)
      modifies this`animations, store`groups
      ensures IdsBelow(LoadOrder(f), |old(store.groups)|)
      ensures (animations, store.groups) == RegisterAll(old(animations), old(store.groups), LoadOrder(f))
      ensures |store.groups| == |old(store.groups)|
      ensures Registry()
      decreases f, 2
    {
      LoadOrderBelow(f, |store.groups|);
      LoadChildrenBelow(f.container, |f.container|, |store.groups|);
      ghost var a0, g0 := animations, store.groups;
      LoadTrees(f.container);
      RegisterEach(f.animations);
      RegisterAllAppend(a0, g0, LoadChildren(f.container, |f.container|), f.animations);
    }

    /** The first loop of `LoadAnimations`: each child's tree in turn. */
    method LoadTrees(cs: seq<Prototypes.Flat>)
      requires Registry() && IsUnused() && forall i :: 0 <= i < |cs| ==> Prototypes.FlatWithin(cs[i], 0, |store.groups|)
      modifies this`animations, store`groups
      ensures IdsBelow(LoadChildren(cs, |cs|), |old(store.groups)|)
      ensures (animations, store.groups) == RegisterAll(old(animations), old(store.groups), LoadChildren(cs, |cs|))
      ensures |store.groups| == |old(store.groups)|
      ensures Registry()
      decreases cs, 1
    {
      ghost var a0, g0 := animations, store.groups;
      LoadChildrenBelow(cs, 0, |g0|);
      var j := 0;
      while j < |cs|
        invariant 0 <= j <= |cs| && Registry() && |store.groups| == |g0|
        invariant IdsBelow(LoadChildren(cs, j), |g0|)
        invariant (animations, store.groups) == RegisterAll(a0, g0, LoadChildren(cs, j))
      {
        LoadTree(cs, j, a0, g0);
        j := j + 1;
      }
    }

    /** The body of that loop: child `j`'s tree loaded after those of the children before it. */
    method LoadTree(cs: seq<Prototypes.Flat>, j: nat, ghost a0: seq<GroupId>, ghost g0: seq<Group>)
      requires j < |cs| && Registry() && IsUnused() && |store.groups| == |g0| && Runtime.TargetsIn(g0)
      requires forall i :: 0 <= i < |cs| ==> Prototypes.FlatWithin(cs[i], 0, |g0|)
      requires IdsBelow(LoadChildren(cs, j), |g0|) && (animations, store.groups) == RegisterAll(a0, g0, LoadChildren(cs, j))
      modifies this`animations, store`groups
      ensures Registry() && |store.groups| == |g0| && IdsBelow(LoadChildren(cs, j + 1), |g0|)
      ensures (animations, store.groups) == RegisterAll(a0, g0, LoadChildren(cs, j + 1))
      decreases cs, 0
    {
      LoadTreeStep(a0, g0, cs, j);
      ghost var p := (animations, store.groups);
      LoadAnimations(cs[j]);
      assert (animations, store.groups) == RegisterAll(p.0, p.1, LoadOrder(cs[j]));
    }

    /** The second loop of `LoadAnimations`: `Register` on each own group. */
    method RegisterEach(ids: seq<GroupId>)
      requires Registry() && IsUnused() && IdsBelow(ids, |store.groups|)
      modifies this`animations, store`groups
      ensures (animations, store.groups) == RegisterAll(old(animations), old(store.groups), ids)
      ensures |store.groups| == |old(store.groups)|
      ensures Registry()
    {
      ghost var a0, g0 := animations, store.groups;
      var i := 0;
      while i < |ids|
        invariant 0 <= i <= |ids| && Registry() && |store.groups| == |g0|
        invariant (animations, store.groups) == RegisterAll(a0, g0, ids[..i])
      {
        assert ids[..i + 1][..i] == ids[..i];
        var _ := Register(ids[i]);
        i := i + 1;
      }
      assert ids[..i] == ids;
    }

    /**
     * `Import`, given the objects and statuses `PrototypeExporter.ImportFlatten`
     * produced: each object is appended and registers its groups, then the
     * statuses are copied in, each replacing the entry under its key.
     */
    method Import(flats: seq<Prototypes.Flat>, exported: map<string, nat>) returns (r: Result<()>)
      requires Valid() && RootsOf(cat, exported)
      requires forall i :: 0 <= i < |flats| ==> Prototypes.FlatWithin(flats[i], 0, |store.groups|)
      modifies this`objects, this`animations, this`status, store`groups
      ensures !IsUnused() ==> (r == Fail(AccessViolation) && objects == old(objects) && animations == old(animations)
        && store.groups == old(store.groups) && status == old(status))
      ensures IsUnused() ==> r == Ok(()) && objects == old(objects) + flats && status == old(status) + exported
      ensures IsUnused() ==> (IdsBelow(LoadChildren(flats, |flats|), |old(store.groups)|) &&
        (animations, store.groups) == RegisterAll(old(animations), old(store.groups), LoadChildren(flats, |flats|)))
      ensures Valid()
    {
      if !IsUnused() {
        return Fail(AccessViolation);
      }
      objects := objects + flats;
      LoadTrees(flats);
      RootsMerged(cat, status, exported);
      status := MergeStatus(status, exported);
      r := Ok(());
    }
  }

  /** Copying roots over roots leaves only roots. */
  lemma RootsMerged(cat: seq<StatusNode>, status: map<string, nat>, exported: map<string, nat>)
    requires RootsOf(cat, status) && RootsOf(cat, exported)
    ensures RootsOf(cat, status + exported)
  {
  }

  /** The last loop of `Import`: each exported status replaces the entry under its key. */
  method MergeStatus(status: map<string, nat>, exported: map<string, nat>) returns (r: map<string, nat>)
    ensures r == status + exported
  {
    r := status;
    var keys := exported.Keys;
    while keys != {}
      invariant keys <= exported.Keys
      invariant r == status + map k | k in exported.Keys - keys :: exported[k]
      decreases keys
    {
      var k :| k in keys;
      r := r[k := exported[k]];
      keys := keys - {k};
    }
    assert r == status + exported;
  }

  /** `List.IndexOf`: the first position holding `x`, or -1. */
  function FirstIndex<T(==)>(s: seq<T>, x: T): (r: int)
    ensures -1 <= r < |s|
    ensures r == -1 <==> x !in s
    ensures r >= 0 ==> s[r] == x && x !in s[..r]
  {
    if |s| == 0 then -1
    else if s[0] == x then 0
    else
      var k := FirstIndex(s[1..], x);
      assert s[1..][..(if k >= 0 then k else 0)] == s[1..(if k >= 0 then k + 1 else 1)];
      if k == -1 then -1 else k + 1
  }
}
