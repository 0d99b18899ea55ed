/**
 * The AfterAnimation back-references (`HookedAnimations`) that registering
 * a group adds to the groups its AfterAnimation activations wait for, and
 * that unregistering removes.  The runtime and the display channel
 * register groups the same way.
 */
module Hooks {
  import opened Groups

  /** Every AfterAnimation activation among `acts` waits for a group below `n`. */
  predicate TargetsBelow(acts: seq<Activation>, n: nat)
  {
    forall i :: 0 <= i < |acts| && acts[i].AfterAnimation? ==> acts[i].effect < n
  }

  /** Activation `i` of `acts` is an AfterAnimation waiting for group `t`. */
  predicate WaitsFor(acts: seq<Activation>, i: nat, t: GroupId)
    requires i < |acts|
  {
    acts[i].AfterAnimation? && acts[i].effect == t
  }

  /** The hooks that activations `lo` up to `hi` of group `g` put on group `t`, in order. */
  function HooksIn(acts: seq<Activation>, g: GroupId, t: GroupId, lo: nat, hi: nat): seq<Hook>
    requires hi <= |acts|
    decreases hi
  {
    if hi <= lo then []
    else HooksIn(acts, g, t, lo, hi - 1) + (if WaitsFor(acts, hi - 1, t) then [Hook(g, hi - 1)] else [])
  }

  /** Group `t` with one more hook at the end of its `HookedAnimations`. */
  function AddHook(gs: seq<Group>, t: GroupId, h: Hook): (r: seq<Group>)
    requires t < |gs|
  {
    gs[t := gs[t].(hooked := gs[t].hooked + [h])]
  }

  /** `List.Remove`: drops the first occurrence of `x`, if any. */
  function RemoveFirst<T(==)>(s: seq<T>, x: T): seq<T>
  {
    if |s| == 0 then []
    else if s[0] == x then s[1..]
    else [s[0]] + RemoveFirst(s[1..], x)
  }

  /** Group `t` with the first occurrence of `h` removed from its `HookedAnimations`. */
  function DropHook(gs: seq<Group>, t: GroupId, h: Hook): (r: seq<Group>)
    requires t < |gs|
  {
    gs[t := gs[t].(hooked := RemoveFirst(gs[t].hooked, h))]
  }

  /** The groups after the first `k` activations of group `g` have hooked themselves. */
  function Hooked(gs: seq<Group>, acts: seq<Activation>, g: GroupId, k: nat): (r: seq<Group>)
    requires k <= |acts| && TargetsBelow(acts, |gs|)
    ensures |r| == |gs|
  {
    if k == 0 then gs
    else
      var prev := Hooked(gs, acts, g, k - 1);
      if acts[k - 1].AfterAnimation? then AddHook(prev, acts[k - 1].effect, Hook(g, k - 1)) else prev
  }

  /** The groups after the first `k` activations of group `g` have unhooked themselves. */
  function Unhooked(gs: seq<Group>, acts: seq<Activation>, g: GroupId, k: nat): (r: seq<Group>)
    requires k <= |acts| && TargetsBelow(acts, |gs|)
    ensures |r| == |gs|
  {
    if k == 0 then gs
    else
      var prev := Unhooked(gs, acts, g, k - 1);
      if acts[k - 1].AfterAnimation? then DropHook(prev, acts[k - 1].effect, Hook(g, k - 1)) else prev
  }

  /** Groups `a` and `b` agree on everything but their hooks. */
  predicate SameButHooks(a: Group, b: Group)
  {
    a.activations == b.activations && a.effects == b.effects && a.name == b.name && a.effectTiming == b.effectTiming
  }

  /** No group's hook list holds a hook owned by `g`. */
  predicate NoHooksOf(gs: seq<Group>, g: GroupId)
  {
    forall t, k :: 0 <= t < |gs| && 0 <= k < |gs[t].hooked| ==> gs[t].hooked[k].owner != g
  }

  /**
   * Every hook names an AfterAnimation activation of an existing group, and
   * sits on the group that activation waits for.
   */
  ghost predicate HooksValid(gs: seq<Group>)
  {
    forall t, k :: 0 <= t < |gs| && 0 <= k < |gs[t].hooked| ==>
      gs[t].hooked[k].owner < |gs| && gs[t].hooked[k].index < |gs[gs[t].hooked[k].owner].activations| &&
      WaitsFor(gs[gs[t].hooked[k].owner].activations, gs[t].hooked[k].index, t)
  }

  /**
   * Registering appends to each group `t` exactly the hooks of the
   * activations waiting for `t`, in activation order, and changes nothing else.
   */
  lemma {:induction false} HookedAt(gs: seq<Group>, acts: seq<Activation>, g: GroupId, k: nat, t: GroupId)
    requires k <= |acts| && TargetsBelow(acts, |gs|) && t < |gs|
    ensures Hooked(gs, acts, g, k)[t].hooked == gs[t].hooked + HooksIn(acts, g, t, 0, k)
    ensures SameButHooks(Hooked(gs, acts, g, k)[t], gs[t])
  {
    if k > 0 {
      HookedAt(gs, acts, g, k - 1, t);
    }
  }

  /** Hooks listed from `lo` start with activation `lo`'s own hook. */
  lemma {:induction false} HooksInFront(acts: seq<Activation>, g: GroupId, t: GroupId, lo: nat, hi: nat)
    requires lo < hi <= |acts|
    ensures HooksIn(acts, g, t, lo, hi) ==
      (if WaitsFor(acts, lo, t) then [Hook(g, lo)] else []) + HooksIn(acts, g, t, lo + 1, hi)
    decreases hi
  {
    if lo + 1 < hi {
      HooksInFront(acts, g, t, lo, hi - 1);
    }
  }

  /** Every hook listed from `lo` is owned by `g` and names an index at least `lo`. */
  lemma {:induction false} HooksInOwned(acts: seq<Activation>, g: GroupId, t: GroupId, lo: nat, hi: nat, h: Hook)
    requires hi <= |acts| && h in HooksIn(acts, g, t, lo, hi)
    ensures h.owner == g && lo <= h.index < hi && WaitsFor(acts, h.index, t)
    decreases hi
  {
    if h !in HooksIn(acts, g, t, lo, hi - 1) {
      assert h == Hook(g, hi - 1);
    } else {
      HooksInOwned(acts, g, t, lo, hi - 1, h);
    }
  }

  /** Removing an element absent from the front part only touches the rest. */
  lemma {:induction false} RemoveFirstAppend<T>(s: seq<T>, ys: seq<T>, x: T)
    requires x !in s
    ensures RemoveFirst(s + ys, x) == s + RemoveFirst(ys, x)
  {
    if |s| > 0 {
      assert (s + ys)[0] == s[0] != x;
      assert (s + ys)[1..] == s[1..] + ys;
      RemoveFirstAppend(s[1..], ys, x);
      calc {
        RemoveFirst(s + ys, x);
        [s[0]] + RemoveFirst(s[1..] + ys, x);
        [s[0]] + (s[1..] + RemoveFirst(ys, x));
        ([s[0]] + s[1..]) + RemoveFirst(ys, x);
        { assert [s[0]] + s[1..] == s; }
        s + RemoveFirst(ys, x);
      }
    } else {
      assert s + ys == ys;
    }
  }

  /**
   * Part way through unregistering, group `t` holds its hooks from before
   * registration plus the hooks of the activations not yet unhooked.
   */
  lemma {:induction false} UnhookedAt(gs: seq<Group>, acts: seq<Activation>, g: GroupId, n: nat, k: nat, t: GroupId)
    requires k <= n <= |acts| && TargetsBelow(acts, |gs|) && t < |gs| && NoHooksOf(gs, g)
    ensures Unhooked(Hooked(gs, acts, g, n), acts, g, k)[t].hooked == gs[t].hooked + HooksIn(acts, g, t, k, n)
    ensures SameButHooks(Unhooked(Hooked(gs, acts, g, n), acts, g, k)[t], gs[t])
  {
    var reg := Hooked(gs, acts, g, n);
    if k == 0 {
      HookedAt(gs, acts, g, n, t);
    } else {
      UnhookedAt(gs, acts, g, n, k - 1, t);
      var prev := Unhooked(reg, acts, g, k - 1);
      var s := gs[t].hooked;
      HooksInFront(acts, g, t, k - 1, n);
      if WaitsFor(acts, k - 1, t) {
        var h := Hook(g, k - 1);
        assert h !in s by {
          forall j | 0 <= j < |s|
            ensures s[j] != h
          {
            assert gs[t].hooked[j].owner != g;
          }
        }
        assert prev[t].hooked == s + ([h] + HooksIn(acts, g, t, k, n));
        RemoveFirstAppend(s, [h] + HooksIn(acts, g, t, k, n), h);
      }
    }
  }

  /** Unregistering a group undoes its registration, provided no hook of it was left over. */
  lemma UnhookUndoesHook(gs: seq<Group>, acts: seq<Activation>, g: GroupId)
    requires TargetsBelow(acts, |gs|) && NoHooksOf(gs, g)
    ensures Unhooked(Hooked(gs, acts, g, |acts|), acts, g, |acts|) == gs
  {
    var r := Unhooked(Hooked(gs, acts, g, |acts|), acts, g, |acts|);
    forall t | 0 <= t < |gs|
      ensures r[t] == gs[t]
    {
      UnhookedAt(gs, acts, g, |acts|, |acts|, t);
    }
  }

  /** Registering group `g` with its own activations keeps every hook valid. */
  lemma {:induction false} HookedValid(gs: seq<Group>, g: GroupId, k: nat)
    requires g < |gs| && k <= |gs[g].activations| && TargetsBelow(gs[g].activations, |gs|) && HooksValid(gs)
    ensures HooksValid(Hooked(gs, gs[g].activations, g, k))
  {
    var acts := gs[g].activations;
    var r := Hooked(gs, acts, g, k);
    forall t, j | 0 <= t < |r| && 0 <= j < |r[t].hooked|
      ensures r[t].hooked[j].owner < |r| && r[t].hooked[j].index < |r[r[t].hooked[j].owner].activations|
      ensures WaitsFor(r[r[t].hooked[j].owner].activations, r[t].hooked[j].index, t)
    {
      HookedAt(gs, acts, g, k, t);
      var h := r[t].hooked[j];
      if j >= |gs[t].hooked| {
        assert h == HooksIn(acts, g, t, 0, k)[j - |gs[t].hooked|];
        HooksInOwned(acts, g, t, 0, k, h);
      } else {
        assert h == gs[t].hooked[j];
      }
      HookedAt(gs, acts, g, k, h.owner);
    }
  }

  /** `RemoveFirst` keeps only elements of its input. */
  lemma {:induction false} RemoveFirstSubset<T>(s: seq<T>, x: T, y: T)
    requires y in RemoveFirst(s, x)
    ensures y in s
  {
    if |s| > 0 && s[0] != x && y != s[0] {
      RemoveFirstSubset(s[1..], x, y);
    }
  }

  /** `RemoveFirst` removes one occurrence of a present element and nothing otherwise. */
  lemma {:induction false} RemoveFirstCount<T>(s: seq<T>, x: T)
    ensures x in s ==> multiset(RemoveFirst(s, x)) == multiset(s) - multiset{x}
    ensures x !in s ==> RemoveFirst(s, x) == s
  {
    if |s| > 0 {
      RemoveFirstCount(s[1..], x);
      assert s == [s[0]] + s[1..];
    }
  }

  /** Unregistering keeps every hook valid. */
  lemma {:induction false} UnhookedValid(gs: seq<Group>, acts: seq<Activation>, g: GroupId, k: nat)
    requires k <= |acts| && TargetsBelow(acts, |gs|) && HooksValid(gs)
    ensures HooksValid(Unhooked(gs, acts, g, k))
    ensures forall t :: 0 <= t < |gs| ==> SameButHooks(Unhooked(gs, acts, g, k)[t], gs[t])
  {
    if k > 0 {
      UnhookedValid(gs, acts, g, k - 1);
      var prev := Unhooked(gs, acts, g, k - 1);
      if acts[k - 1].AfterAnimation? {
        var t0 := acts[k - 1].effect;
        var r := DropHook(prev, t0, Hook(g, k - 1));
        forall t, j | 0 <= t < |r| && 0 <= j < |r[t].hooked|
          ensures r[t].hooked[j].owner < |r| && r[t].hooked[j].index < |r[r[t].hooked[j].owner].activations|
          ensures WaitsFor(r[r[t].hooked[j].owner].activations, r[t].hooked[j].index, t)
        {
          var h := r[t].hooked[j];
          if t == t0 {
            RemoveFirstSubset(prev[t].hooked, Hook(g, k - 1), h);
            var i :| 0 <= i < |prev[t].hooked| && prev[t].hooked[i] == h;
          }
        }
      }
    }
  }

  /** `AnimationRuntime.Register`/`DisplayChannel.Register`, hook part: each AfterAnimation hooks itself on its target. */
  method HookGroup(store: GroupStore, g: GroupId)
    requires g < |store.groups| && TargetsBelow(store.groups[g].activations, |store.groups|)
    modifies store`groups
    ensures store.groups == Hooked(old(store.groups), old(store.groups)[g].activations, g, |old(store.groups)[g].activations|)
  {
    var acts := store.groups[g].activations;
    var i := 0;
    while i < |acts|
      invariant i <= |acts| && |store.groups| == |old(store.groups)|
      invariant store.groups == Hooked(old(store.groups), acts, g, i)
    {
      if acts[i].AfterAnimation? {
        var t := acts[i].effect;
        store.groups := store.groups[t := store.groups[t].(hooked := store.groups[t].hooked + [Hook(g, i)])];
      }
      i := i + 1;
    }
  }

  /** The unregistering counterpart: each AfterAnimation removes its hook from its target. */
  method UnhookGroup(store: GroupStore, g: GroupId)
    requires g < |store.groups| && TargetsBelow(store.groups[g].activations, |store.groups|)
    modifies store`groups
    ensures store.groups == Unhooked(old(store.groups), old(store.groups)[g].activations, g, |old(store.groups)[g].activations|)
  {
    var acts := store.groups[g].activations;
    var i := 0;
    while i < |acts|
      invariant i <= |acts| && |store.groups| == |old(store.groups)|
      invariant store.groups == Unhooked(old(store.groups), acts, g, i)
    {
      if acts[i].AfterAnimation? {
        var t := acts[i].effect;
        store.groups := store.groups[t := store.groups[t].(hooked := RemoveFirst(store.groups[t].hooked, Hook(g, i)))];
      }
      i := i + 1;
    }
  }
}
