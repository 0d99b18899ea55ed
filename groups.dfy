/**
 * Animation groups by identity: the cells and groups each activation and
 * effect refers to, how the flattener redirects those references, and how
 * a group is cloned into the cell store, each copied cell by the store's
 * own `Clone`.
 */
module Groups {
  import opened Wrappers
  import opened Values
  import opened Cells
  import opened Retarget
  import Cloning
  import Store

  type GroupId = nat

  /** An `AnimationActivation`, by the cells and the group it refers to. */
  datatype Activation =
    | StatusChange(enabled: CellId, oldStatus: CellId, newStatus: CellId)
    | AfterAnimation(enabled: CellId, effect: GroupId)
    | Click(enabled: CellId, button: CellId)
    | KeyDown(enabled: CellId, key: CellId)
    | KeyUp(enabled: CellId, key: CellId)
    | KeyPress(enabled: CellId, keyChar: CellId)
    | Script(enabled: CellId, key: CellId)

  /** The cells of an activation, as its `GetValueWrapper` lists them. */
  function ActSlots(a: Activation): seq<CellId>
  {
    match a
    case StatusChange(e, o, n) => [e, o, n]
    case AfterAnimation(e, _) => [e]
    case Click(e, b) => [e, b]
    case KeyDown(e, k) => [e, k]
    case KeyUp(e, k) => [e, k]
    case KeyPress(e, c) => [e, c]
    case Script(e, k) => [e, k]
  }

  /** `a` and `b` are the same kind of activation, and an AfterAnimation waits for the same group in both. */
  predicate SameAct(a: Activation, b: Activation)
  {
    |ActSlots(a)| == |ActSlots(b)|
    && a.StatusChange? == b.StatusChange? && a.AfterAnimation? == b.AfterAnimation?
    && a.Click? == b.Click? && a.KeyDown? == b.KeyDown? && a.KeyUp? == b.KeyUp?
    && a.KeyPress? == b.KeyPress? && a.Script? == b.Script?
    && (a.AfterAnimation? ==> a.effect == b.effect)
  }

  /** `helper.Convert(group)`: a group's replacement when the group map has one. */
  function GroupConv(anims: map<GroupId, GroupId>, g: GroupId): (h: GroupId)
    ensures g in anims ==> h == anims[g]
    ensures g !in anims ==> h == g
  {
    if g in anims then anims[g] else g
  }

  /** No replacement group is itself replaced. */
  ghost predicate GroupImagesNotKeys(anims: map<GroupId, GroupId>)
  {
    forall k :: k in anims ==> anims[k] !in anims
  }

  /** Every cell of `cs` through the conversion map. */
  function ConvAll(conv: Conversion, cs: seq<CellId>): (r: seq<CellId>)
    ensures |r| == |cs| && forall i :: 0 <= i < |cs| ==> r[i] == Conv1(conv, cs[i])
  {
    seq(|cs|, i requires 0 <= i < |cs| => Conv1(conv, cs[i]))
  }

  /** `AnimationActivation.MoveTargets`: every cell through the conversion map, an AfterAnimation's group through the group map. */
  function MoveAct(a: Activation, conv: Conversion, anims: map<GroupId, GroupId>): (r: Activation)
  {
    match a
    case StatusChange(e, o, n) => StatusChange(Conv1(conv, e), Conv1(conv, o), Conv1(conv, n))
    case AfterAnimation(e, g) => AfterAnimation(Conv1(conv, e), GroupConv(anims, g))
    case Click(e, b) => Click(Conv1(conv, e), Conv1(conv, b))
    case KeyDown(e, k) => KeyDown(Conv1(conv, e), Conv1(conv, k))
    case KeyUp(e, k) => KeyUp(Conv1(conv, e), Conv1(conv, k))
    case KeyPress(e, c) => KeyPress(Conv1(conv, e), Conv1(conv, c))
    case Script(e, k) => Script(Conv1(conv, e), Conv1(conv, k))
  }

  /**
   * A moved activation keeps its kind, refers to the images of its cells,
   * and an AfterAnimation waits for the image of its group.
   */
  lemma MoveActMeaning(a: Activation, conv: Conversion, anims: map<GroupId, GroupId>)
    ensures var r := MoveAct(a, conv, anims);
      && ActSlots(r) == ConvAll(conv, ActSlots(a))
      && (r.AfterAnimation? <==> a.AfterAnimation?)
      && (!a.AfterAnimation? ==> SameAct(a, r))
      && (r.AfterAnimation? ==> r.effect == GroupConv(anims, a.effect))
  {
  }

  /** Moving twice through maps whose images are not keys is moving once. */
  lemma MoveActIdempotent(a: Activation, conv: Conversion, anims: map<GroupId, GroupId>)
    requires ImagesNotKeys(conv) && GroupImagesNotKeys(anims)
    ensures MoveAct(MoveAct(a, conv, anims), conv, anims) == MoveAct(a, conv, anims)
  {
    forall x: CellId
      ensures Conv1(conv, Conv1(conv, x)) == Conv1(conv, x)
    {
      Conv1Idempotent(conv, x);
    }
  }

  /** The cells of an effect's base part: the timing cells, Reverse, Repeat, Mode, Async and Enable. */
  datatype EffectBase = EffectBase(timeStart: CellId, timeOffset: CellId, timeFinish: CellId, timeDuration: CellId,
                                   reverse: CellId, repeat: CellId, mode: CellId, async: CellId, enable: CellId)

  /** The typed part of an `AnimationEffect`. */
  datatype EffectKind =
    | ADouble(target: CellId, valueStart: CellId, valueChange: CellId, valueFinish: CellId)
    | AInt(target: CellId, valueStart: CellId, valueChange: CellId, valueFinish: CellId)
    | AColor(target: CellId, valueStart: CellId, valueFinish: CellId)
    | AScreenPos(target: CellId, valueStart: CellId, valueChange: CellId, valueFinish: CellId)
    | ABool(target: CellId, valueStart: CellId, valueFinish: CellId)
    | AString(target: CellId, valueStart: CellId, valueFinish: CellId, flip: CellId)
    | Call(group: GroupId, timing: CellId)
    | SetState(state: CellId)
    | AnimAction(actionName: CellId)
    | PlaySound(file: CellId, volume: CellId)

  datatype Effect = Effect(base: EffectBase, kind: EffectKind)

  /** Index of the Repeat cell among an effect's slots. */
  const RepeatSlot: nat := 5

  /** Index of the Mode cell among an effect's slots. */
  const ModeSlot: nat := 6

  function BaseSlots(b: EffectBase): (r: seq<CellId>)
    ensures |r| == 9 && r[RepeatSlot] == b.repeat && r[ModeSlot] == b.mode
  {
    [b.timeStart, b.timeOffset, b.timeFinish, b.timeDuration, b.reverse, b.repeat, b.mode, b.async, b.enable]
  }

  function KindSlots(k: EffectKind): seq<CellId>
  {
    match k
    case ADouble(t, s, c, f) => [t, s, c, f]
    case AInt(t, s, c, f) => [t, s, c, f]
    case AColor(t, s, f) => [t, s, f]
    case AScreenPos(t, s, c, f) => [t, s, c, f]
    case ABool(t, s, f) => [t, s, f]
    case AString(t, s, f, p) => [t, s, f, p]
    case Call(_, t) => [t]
    case SetState(s) => [s]
    case AnimAction(n) => [n]
    case PlaySound(f, v) => [f, v]
  }

  /** How many typed cells an effect kind has. */
  function KindArity(k: EffectKind): nat
  {
    match k
    case ADouble(_, _, _, _) => 4
    case AInt(_, _, _, _) => 4
    case AColor(_, _, _) => 3
    case AScreenPos(_, _, _, _) => 4
    case ABool(_, _, _) => 3
    case AString(_, _, _, _) => 4
    case Call(_, _) => 1
    case SetState(_) => 1
    case AnimAction(_) => 1
    case PlaySound(_, _) => 2
  }

  /** Every cell an effect refers to: the base cells, then the typed ones. */
  function Slots(e: Effect): (r: seq<CellId>)
    ensures |r| == 9 + KindArity(e.kind)
  {
    BaseSlots(e.base) + KindSlots(e.kind)
  }

  /** Whether the typed part refers to the cell it animates (that cell is shared by clones). */
  predicate HasTarget(k: EffectKind)
  {
    k.ADouble? || k.AInt? || k.AColor? || k.AScreenPos? || k.ABool? || k.AString?
  }

  /** The same kind of typed effect, and a Call runs the same group. */
  predicate SameKind(a: EffectKind, b: EffectKind)
  {
    KindArity(a) == KindArity(b)
    && a.ADouble? == b.ADouble? && a.AInt? == b.AInt? && a.AColor? == b.AColor?
    && a.AScreenPos? == b.AScreenPos? && a.ABool? == b.ABool? && a.AString? == b.AString?
    && a.Call? == b.Call? && a.SetState? == b.SetState? && a.AnimAction? == b.AnimAction?
    && a.PlaySound? == b.PlaySound?
    && (a.Call? ==> a.group == b.group)
  }

  /**
   * `GetValueWrapper` of an effect: the base cells without Mode, then the
   * typed ones; a Call lists Enable before Async.
   */
  function Listed(e: Effect): seq<CellId>
  {
    var b := e.base;
    if e.kind.Call? then
      [b.timeStart, b.timeOffset, b.timeFinish, b.timeDuration, b.reverse, b.repeat, b.enable, b.async, e.kind.timing]
    else
      [b.timeStart, b.timeOffset, b.timeFinish, b.timeDuration, b.reverse, b.repeat, b.async, b.enable] + KindSlots(e.kind)
  }

  /** Every cell of an effect except Mode is listed, and nothing else is. */
  lemma ListedIsSlotsWithoutMode(e: Effect)
    ensures forall i :: 0 <= i < |Slots(e)| && i != ModeSlot ==> Slots(e)[i] in Listed(e)
    ensures forall c :: c in Listed(e) ==> c in Slots(e)
    ensures |Listed(e)| == |Slots(e)| - 1
  {
    var s := Slots(e);
    assert s[9..] == KindSlots(e.kind);
    if e.kind.Call? {
      assert s[9] == e.kind.timing;
    } else {
      forall i | 9 <= i < |s|
        ensures s[i] in Listed(e)
      {
        assert s[i] == Listed(e)[i - 1];
      }
    }
  }

  /** The base cells but Repeat through the conversion map. */
  function MoveBase(b: EffectBase, conv: Conversion): EffectBase
  {
    EffectBase(Conv1(conv, b.timeStart), Conv1(conv, b.timeOffset), Conv1(conv, b.timeFinish), Conv1(conv, b.timeDuration),
               Conv1(conv, b.reverse), b.repeat, Conv1(conv, b.mode), Conv1(conv, b.async), Conv1(conv, b.enable))
  }

  /** The typed cells through the conversion map, a Call's group through the group map. */
  function MoveKind(k: EffectKind, conv: Conversion, anims: map<GroupId, GroupId>): EffectKind
  {
    match k
    case ADouble(t, s, c, f) => ADouble(Conv1(conv, t), Conv1(conv, s), Conv1(conv, c), Conv1(conv, f))
    case AInt(t, s, c, f) => AInt(Conv1(conv, t), Conv1(conv, s), Conv1(conv, c), Conv1(conv, f))
    case AColor(t, s, f) => AColor(Conv1(conv, t), Conv1(conv, s), Conv1(conv, f))
    case AScreenPos(t, s, c, f) => AScreenPos(Conv1(conv, t), Conv1(conv, s), Conv1(conv, c), Conv1(conv, f))
    case ABool(t, s, f) => ABool(Conv1(conv, t), Conv1(conv, s), Conv1(conv, f))
    case AString(t, s, f, p) => AString(Conv1(conv, t), Conv1(conv, s), Conv1(conv, f), Conv1(conv, p))
    case Call(g, t) => Call(GroupConv(anims, g), Conv1(conv, t))
    case SetState(s) => SetState(Conv1(conv, s))
    case AnimAction(n) => AnimAction(Conv1(conv, n))
    case PlaySound(f, v) => PlaySound(Conv1(conv, f), Conv1(conv, v))
  }

  /** `AnimationEffect.MoveTargets` and its overrides: every cell but Repeat redirected, a Call's group too. */
  function MoveEffect(e: Effect, conv: Conversion, anims: map<GroupId, GroupId>): (r: Effect)
  {
    Effect(MoveBase(e.base, conv), MoveKind(e.kind, conv, anims))
  }

  /**
   * A moved effect keeps its kind and its Repeat cell, refers to the
   * images of all its other cells, and a Call runs the image of its group.
   */
  lemma MoveEffectMeaning(e: Effect, conv: Conversion, anims: map<GroupId, GroupId>)
    ensures var r := MoveEffect(e, conv, anims);
      && |Slots(r)| == |Slots(e)|
      && (forall i :: 0 <= i < |Slots(e)| ==>
            Slots(r)[i] == if i == RepeatSlot then Slots(e)[i] else Conv1(conv, Slots(e)[i]))
      && (r.kind.Call? <==> e.kind.Call?)
      && (!e.kind.Call? ==> SameKind(e.kind, r.kind))
      && (r.kind.Call? ==> r.kind.group == GroupConv(anims, e.kind.group))
  {
    var r := MoveEffect(e, conv, anims);
    MoveKindMeaning(e.kind, conv, anims);
    forall i | 0 <= i < |Slots(e)|
      ensures Slots(r)[i] == if i == RepeatSlot then Slots(e)[i] else Conv1(conv, Slots(e)[i])
    {
      if i < 9 {
        assert Slots(r)[i] == BaseSlots(r.base)[i] && Slots(e)[i] == BaseSlots(e.base)[i];
      } else {
        assert Slots(r)[i] == KindSlots(r.kind)[i - 9] && Slots(e)[i] == KindSlots(e.kind)[i - 9];
      }
    }
  }

  /** The typed cells of a moved kind are the images of the original's, a Call's group the image of its group. */
  lemma MoveKindMeaning(k: EffectKind, conv: Conversion, anims: map<GroupId, GroupId>)
    ensures var r := MoveKind(k, conv, anims);
      && |KindSlots(r)| == |KindSlots(k)| == KindArity(k)
      && (forall i :: 0 <= i < |KindSlots(k)| ==> KindSlots(r)[i] == Conv1(conv, KindSlots(k)[i]))
      && (r.Call? <==> k.Call?)
      && (!k.Call? ==> SameKind(k, r))
      && (r.Call? ==> r.group == GroupConv(anims, k.group))
  {
  }

  /** Moving an effect twice through maps whose images are not keys is moving it once. */
  lemma MoveEffectIdempotent(e: Effect, conv: Conversion, anims: map<GroupId, GroupId>)
    requires ImagesNotKeys(conv) && GroupImagesNotKeys(anims)
    ensures MoveEffect(MoveEffect(e, conv, anims), conv, anims) == MoveEffect(e, conv, anims)
  {
    forall x: CellId
      ensures Conv1(conv, Conv1(conv, x)) == Conv1(conv, x)
    {
      Conv1Idempotent(conv, x);
    }
  }

  /** What a clone does with one slot of an effect. */
  datatype Role =
    | Shared   // the clone refers to the same cell
    | Copied   // the clone refers to a copy of the cell
    | Renewed  // the clone refers to a fresh default cell

  /**
   * The role of slot `i` in `AnimationEffect.Clone`: the animated target
   * is shared, Repeat is not copied (the clone keeps the default cell its
   * constructor made), and every other cell is copied.
   */
  function SlotRole(e: Effect, i: nat): Role
  {
    if i == RepeatSlot then Renewed
    else if i == 9 && HasTarget(e.kind) then Shared
    else Copied
  }

  /** A registered AfterAnimation: the activation at `index` of group `owner`. */
  datatype Hook = Hook(owner: GroupId, index: nat)

  /** An `AnimationGroup`: its activations and effects in order, its name, its EffectTiming cell and its hooks. */
  datatype Group = Group(activations: seq<Activation>, effects: seq<Effect>, name: Option<string>,
                         effectTiming: CellId, hooked: seq<Hook>)

  // ----- Cloning a group into the cell store -----

  /** Every cell of `xs` lies in a store of `n` cells. */
  predicate CellsIn(xs: seq<CellId>, n: nat)
  {
    forall i :: 0 <= i < |xs| ==> xs[i] < n
  }

  /** Every cell group `g` refers to lies in a store of `n` cells. */
  predicate GroupIn(g: Group, n: nat)
  {
    && (forall i :: 0 <= i < |g.activations| ==> CellsIn(ActSlots(g.activations[i]), n))
    && (forall i :: 0 <= i < |g.effects| ==> CellsIn(Slots(g.effects[i]), n))
    && g.effectTiming < n
  }

  /** The `Repeat` cell an effect's constructor makes: present, with the null name `Unnamed`, holding the default mode, no remote source. */
  predicate DefaultRepeat(x: Cell)
  {
    x.Wrapper? && x == Wrapper(x.id, Unnamed, true, KRepeat, Default(KRepeat), None)
  }

  /**
   * Slot `y` of a clone stands to slot `x` of the original as `role` says,
   * in the store `cells` grown from `orig`: it is the same cell, a clone of
   * it, or a new default Repeat cell.
   */
  ghost predicate SlotCloneOf(orig: seq<Cell>, rank: seq<nat>, cells: seq<Cell>, role: Role, x: CellId, y: CellId)
    requires Ranked(orig, rank) && x < |orig|
  {
    match role
    case Shared => y == x
    case Copied => Cloning.CloneOf(orig, rank, cells, y, x)
    case Renewed => |orig| <= y < |cells| && DefaultRepeat(cells[y])
  }

  /** Each slot of `ys` stands to the slot of `xs` at the same index as `roles` says. */
  ghost predicate SlotsCloneOf(orig: seq<Cell>, rank: seq<nat>, cells: seq<Cell>,
                               roles: seq<Role>, xs: seq<CellId>, ys: seq<CellId>)
    requires Ranked(orig, rank) && CellsIn(xs, |orig|)
  {
    |roles| == |xs| == |ys| && forall i :: 0 <= i < |xs| ==> SlotCloneOf(orig, rank, cells, roles[i], xs[i], ys[i])
  }

  /** Appending further cells keeps every slot of a clone what it was. */
  lemma SlotsCloneOfGrows(orig: seq<Cell>, rank: seq<nat>, cells: seq<Cell>, cells': seq<Cell>,
                          roles: seq<Role>, xs: seq<CellId>, ys: seq<CellId>)
    requires Ranked(orig, rank) && CellsIn(xs, |orig|) && |cells| <= |cells'|
    requires forall i :: 0 <= i < |cells| ==> cells'[i] == cells[i]
    requires SlotsCloneOf(orig, rank, cells, roles, xs, ys)
    ensures SlotsCloneOf(orig, rank, cells', roles, xs, ys)
  {
    forall i | 0 <= i < |xs| && roles[i] == Copied
      ensures Cloning.CloneOf(orig, rank, cells', ys[i], xs[i])
    {
      Cloning.CloneOfGrows(orig, rank, cells, cells', ys[i], xs[i]);
    }
  }

  /** Slots cloned from a store that extends `orig` are clones relative to `orig` as well. */
  lemma SlotsCloneOfBase(orig: seq<Cell>, rank: seq<nat>, mid: seq<Cell>, rank': seq<nat>, cells: seq<Cell>,
                         roles: seq<Role>, xs: seq<CellId>, ys: seq<CellId>)
    requires Ranked(orig, rank) && Ranked(mid, rank') && Cloning.Extends(orig, rank, mid, rank') && CellsIn(xs, |orig|)
    requires SlotsCloneOf(mid, rank', cells, roles, xs, ys)
    ensures SlotsCloneOf(orig, rank, cells, roles, xs, ys)
  {
    forall i | 0 <= i < |xs| && roles[i] == Copied
      ensures Cloning.CloneOf(orig, rank, cells, ys[i], xs[i])
    {
      Cloning.CloneOfBase(orig, rank, mid, rank', cells, ys[i], xs[i]);
    }
  }

  /** Every slot of a clone lies in the store it was cloned into. */
  lemma SlotsCloneIn(orig: seq<Cell>, rank: seq<nat>, cells: seq<Cell>, roles: seq<Role>, xs: seq<CellId>, ys: seq<CellId>)
    requires Ranked(orig, rank) && CellsIn(xs, |orig|) && |orig| <= |cells|
    requires SlotsCloneOf(orig, rank, cells, roles, xs, ys)
    ensures CellsIn(ys, |cells|)
  {
  }

  /**
   * A clone's slots read as the original's do, but for a new Repeat cell,
   * which reads its default; this needs every buffer of the original store
   * to hold what its node computes.
   */
  lemma SlotsReadAlike(orig: seq<Cell>, rank: seq<nat>, cells: seq<Cell>, rank': seq<nat>,
                       roles: seq<Role>, xs: seq<CellId>, ys: seq<CellId>)
    requires Ranked(orig, rank) && Coherent(orig, rank) && Ranked(cells, rank') && Cloning.Extends(orig, rank, cells, rank')
    requires CellsIn(xs, |orig|) && SlotsCloneOf(orig, rank, cells, roles, xs, ys)
    ensures forall i :: 0 <= i < |xs| ==>
      (ys[i] < |cells| &&
       Eval(cells, rank', ys[i]) == if roles[i] == Renewed then Ok(Default(KRepeat)) else Eval(orig, rank, xs[i]))
  {
    forall i | 0 <= i < |xs|
      ensures ys[i] < |cells|
      ensures Eval(cells, rank', ys[i]) == if roles[i] == Renewed then Ok(Default(KRepeat)) else Eval(orig, rank, xs[i])
    {
      match roles[i]
      case Shared => Cloning.EvalPrefix(orig, rank, cells, rank', xs[i]);
      case Copied => Cloning.CloneReadsAlike(orig, rank, cells, rank', ys[i], xs[i]);
      case Renewed =>
    }
  }

  /** The roles of an activation's cells in `AnimationActivation.Clone`: every one is copied. */
  function ActRoles(a: Activation): (r: seq<Role>)
    ensures |r| == |ActSlots(a)| && forall i :: 0 <= i < |r| ==> r[i] == Copied
  {
    seq(|ActSlots(a)|, _ => Copied)
  }

  /** The roles of an effect's cells in `AnimationEffect.Clone`, slot by slot. */
  function EffectRoles(e: Effect): (r: seq<Role>)
    ensures |r| == |Slots(e)| && forall i :: 0 <= i < |r| ==> r[i] == SlotRole(e, i)
  {
    seq(|Slots(e)|, i requires 0 <= i => SlotRole(e, i))
  }

  /** `b` is `AnimationActivation.Clone` of `a`: the same kind waiting for the same group, every cell a clone. */
  ghost predicate ActCloneOf(orig: seq<Cell>, rank: seq<nat>, cells: seq<Cell>, a: Activation, b: Activation)
    requires Ranked(orig, rank) && CellsIn(ActSlots(a), |orig|)
  {
    SameAct(a, b) && SlotsCloneOf(orig, rank, cells, ActRoles(a), ActSlots(a), ActSlots(b))
  }

  /**
   * `c` is `AnimationEffect.Clone` of `e`: the same kind, a Call running the
   * same group, the target shared, a new default Repeat, every other cell a
   * clone.
   */
  ghost predicate EffectCloneOf(orig: seq<Cell>, rank: seq<nat>, cells: seq<Cell>, e: Effect, c: Effect)
    requires Ranked(orig, rank) && CellsIn(Slots(e), |orig|)
  {
    SameKind(e.kind, c.kind) && SlotsCloneOf(orig, rank, cells, EffectRoles(e), Slots(e), Slots(c))
  }

  /** Appending further cells keeps an activation's clone a clone. */
  lemma ActCloneOfGrows(orig: seq<Cell>, rank: seq<nat>, cells: seq<Cell>, cells': seq<Cell>, a: Activation, b: Activation)
    requires Ranked(orig, rank) && CellsIn(ActSlots(a), |orig|) && |cells| <= |cells'|
    requires forall i :: 0 <= i < |cells| ==> cells'[i] == cells[i]
    requires ActCloneOf(orig, rank, cells, a, b)
    ensures ActCloneOf(orig, rank, cells', a, b)
  {
    SlotsCloneOfGrows(orig, rank, cells, cells', ActRoles(a), ActSlots(a), ActSlots(b));
  }

  /** Appending further cells keeps an effect's clone a clone. */
  lemma EffectCloneOfGrows(orig: seq<Cell>, rank: seq<nat>, cells: seq<Cell>, cells': seq<Cell>, e: Effect, c: Effect)
    requires Ranked(orig, rank) && CellsIn(Slots(e), |orig|) && |cells| <= |cells'|
    requires forall i :: 0 <= i < |cells| ==> cells'[i] == cells[i]
    requires EffectCloneOf(orig, rank, cells, e, c)
    ensures EffectCloneOf(orig, rank, cells', e, c)
  {
    SlotsCloneOfGrows(orig, rank, cells, cells', EffectRoles(e), Slots(e), Slots(c));
  }

  /**
   * `c` is `AnimationGroup.Clone` of `g`: the same name, no hooks, each
   * activation and effect cloned in place, and the EffectTiming cloned.
   */
  ghost predicate GroupCloneOf(orig: seq<Cell>, rank: seq<nat>, cells: seq<Cell>, g: Group, c: Group)
    requires Ranked(orig, rank) && GroupIn(g, |orig|)
  {
    && c.name == g.name && c.hooked == []
    && |c.activations| == |g.activations| && |c.effects| == |g.effects|
    && (forall i :: 0 <= i < |g.activations| ==> ActCloneOf(orig, rank, cells, g.activations[i], c.activations[i]))
    && (forall i :: 0 <= i < |g.effects| ==> EffectCloneOf(orig, rank, cells, g.effects[i], c.effects[i]))
    && Cloning.CloneOf(orig, rank, cells, c.effectTiming, g.effectTiming)
  }

  /**
   * A group assembled from activations cloned into `mid`, effects cloned
   * into `mid2` and an EffectTiming cloned into `cells`, each store growing
   * the one before, is a clone of `g` in the final store.
   */
  lemma GroupCloneAssembled(orig: seq<Cell>, rank: seq<nat>, mid: seq<Cell>, rank1: seq<nat>, mid2: seq<Cell>, rank2: seq<nat>,
                            cells: seq<Cell>, g: Group, c: Group)
    requires Ranked(orig, rank) && Ranked(mid, rank1) && GroupIn(g, |orig|)
    requires Cloning.Extends(orig, rank, mid, rank1) && Cloning.Extends(mid, rank1, mid2, rank2)
    requires |mid2| <= |cells| && forall i :: 0 <= i < |mid2| ==> cells[i] == mid2[i]
    requires c.name == g.name && c.hooked == []
    requires |c.activations| == |g.activations| && ActsCloneOf(orig, rank, mid, g.activations, c.activations)
    requires |c.effects| == |g.effects| && EffectsCloneOf(mid, rank1, mid2, g.effects, c.effects)
    requires Cloning.CloneOf(orig, rank, cells, c.effectTiming, g.effectTiming)
    ensures GroupCloneOf(orig, rank, cells, g, c)
  {
    forall i | 0 <= i < |g.activations|
      ensures ActCloneOf(orig, rank, cells, g.activations[i], c.activations[i])
    {
      var a := g.activations[i];
      SlotsCloneOfGrows(orig, rank, mid, cells, ActRoles(a), ActSlots(a), ActSlots(c.activations[i]));
    }
    forall i | 0 <= i < |g.effects|
      ensures EffectCloneOf(orig, rank, cells, g.effects[i], c.effects[i])
    {
      var e := g.effects[i];
      SlotsCloneOfBase(orig, rank, mid, rank1, mid2, EffectRoles(e), Slots(e), Slots(c.effects[i]));
      SlotsCloneOfGrows(orig, rank, mid2, cells, EffectRoles(e), Slots(e), Slots(c.effects[i]));
    }
  }

  /** Appending further cells keeps a group's clone a clone. */
  lemma GroupCloneOfGrows(orig: seq<Cell>, rank: seq<nat>, cells: seq<Cell>, cells': seq<Cell>, g: Group, c: Group)
    requires Ranked(orig, rank) && GroupIn(g, |orig|) && |cells| <= |cells'|
    requires forall i :: 0 <= i < |cells| ==> cells'[i] == cells[i]
    requires GroupCloneOf(orig, rank, cells, g, c)
    ensures GroupCloneOf(orig, rank, cells', g, c)
  {
    forall i | 0 <= i < |g.activations|
      ensures ActCloneOf(orig, rank, cells', g.activations[i], c.activations[i])
    {
      ActCloneOfGrows(orig, rank, cells, cells', g.activations[i], c.activations[i]);
    }
    forall i | 0 <= i < |g.effects|
      ensures EffectCloneOf(orig, rank, cells', g.effects[i], c.effects[i])
    {
      EffectCloneOfGrows(orig, rank, cells, cells', g.effects[i], c.effects[i]);
    }
    Cloning.CloneOfGrows(orig, rank, cells, cells', c.effectTiming, g.effectTiming);
  }

  /** A group cloned from a store that extends `orig` is a clone relative to `orig` as well. */
  lemma GroupCloneOfBase(orig: seq<Cell>, rank: seq<nat>, mid: seq<Cell>, rank': seq<nat>, cells: seq<Cell>, g: Group, c: Group)
    requires Ranked(orig, rank) && Ranked(mid, rank') && Cloning.Extends(orig, rank, mid, rank') && GroupIn(g, |orig|)
    requires GroupCloneOf(mid, rank', cells, g, c)
    ensures GroupCloneOf(orig, rank, cells, g, c)
  {
    forall i | 0 <= i < |g.activations|
      ensures ActCloneOf(orig, rank, cells, g.activations[i], c.activations[i])
    {
      var a := g.activations[i];
      SlotsCloneOfBase(orig, rank, mid, rank', cells, ActRoles(a), ActSlots(a), ActSlots(c.activations[i]));
    }
    forall i | 0 <= i < |g.effects|
      ensures EffectCloneOf(orig, rank, cells, g.effects[i], c.effects[i])
    {
      var e := g.effects[i];
      SlotsCloneOfBase(orig, rank, mid, rank', cells, EffectRoles(e), Slots(e), Slots(c.effects[i]));
    }
    Cloning.CloneOfBase(orig, rank, mid, rank', cells, c.effectTiming, g.effectTiming);
  }

  /** A cloned group's cells all lie in the store it was cloned into. */
  lemma GroupCloneIn(orig: seq<Cell>, rank: seq<nat>, cells: seq<Cell>, g: Group, c: Group)
    requires Ranked(orig, rank) && GroupIn(g, |orig|) && |orig| <= |cells| && GroupCloneOf(orig, rank, cells, g, c)
    ensures GroupIn(c, |cells|)
  {
    forall i | 0 <= i < |g.activations|
      ensures CellsIn(ActSlots(c.activations[i]), |cells|)
    {
      SlotsCloneIn(orig, rank, cells, ActRoles(g.activations[i]), ActSlots(g.activations[i]), ActSlots(c.activations[i]));
    }
    forall i | 0 <= i < |g.effects|
      ensures CellsIn(Slots(c.effects[i]), |cells|)
    {
      SlotsCloneIn(orig, rank, cells, EffectRoles(g.effects[i]), Slots(g.effects[i]), Slots(c.effects[i]));
    }
  }

  /**
   * A cloned group reads as its original: every activation cell, every
   * effect cell but Repeat, and the EffectTiming read the original's values,
   * and each Repeat reads the default mode. Every buffer of the original
   * store must hold what its node computes, as it does once read.
   */
  lemma GroupCloneReadsAlike(orig: seq<Cell>, rank: seq<nat>, cells: seq<Cell>, rank': seq<nat>, g: Group, c: Group)
    requires Ranked(orig, rank) && Coherent(orig, rank) && Ranked(cells, rank') && Cloning.Extends(orig, rank, cells, rank')
    requires GroupIn(g, |orig|) && GroupCloneOf(orig, rank, cells, g, c)
    ensures GroupIn(c, |cells|)
    ensures forall i, j :: 0 <= i < |g.activations| && 0 <= j < |ActSlots(g.activations[i])| ==>
      Eval(cells, rank', ActSlots(c.activations[i])[j]) == Eval(orig, rank, ActSlots(g.activations[i])[j])
    ensures forall i, j :: 0 <= i < |g.effects| && 0 <= j < |Slots(g.effects[i])| ==>
      Eval(cells, rank', Slots(c.effects[i])[j]) ==
        if j == RepeatSlot then Ok(Default(KRepeat)) else Eval(orig, rank, Slots(g.effects[i])[j])
    ensures Eval(cells, rank', c.effectTiming) == Eval(orig, rank, g.effectTiming)
  {
    GroupCloneIn(orig, rank, cells, g, c);
    forall i | 0 <= i < |g.activations|
      ensures forall j :: 0 <= j < |ActSlots(g.activations[i])| ==>
        Eval(cells, rank', ActSlots(c.activations[i])[j]) == Eval(orig, rank, ActSlots(g.activations[i])[j])
    {
      SlotsReadAlike(orig, rank, cells, rank', ActRoles(g.activations[i]), ActSlots(g.activations[i]), ActSlots(c.activations[i]));
    }
    forall i | 0 <= i < |g.effects|
      ensures forall j :: 0 <= j < |Slots(g.effects[i])| ==>
        Eval(cells, rank', Slots(c.effects[i])[j]) ==
          if j == RepeatSlot then Ok(Default(KRepeat)) else Eval(orig, rank, Slots(g.effects[i])[j])
    {
      SlotsReadAlike(orig, rank, cells, rank', EffectRoles(g.effects[i]), Slots(g.effects[i]), Slots(c.effects[i]));
    }
    Cloning.CloneReadsAlike(orig, rank, cells, rank', c.effectTiming, g.effectTiming);
  }

  /** Activation `a` with its cells replaced by `ys`, in slot order. */
  function WithActSlots(a: Activation, ys: seq<CellId>): (r: Activation)
    requires |ys| == |ActSlots(a)|
    ensures SameAct(a, r) && ActSlots(r) == ys
  {
    match a
    case StatusChange(_, _, _) => StatusChange(ys[0], ys[1], ys[2])
    case AfterAnimation(_, g) => AfterAnimation(ys[0], g)
    case Click(_, _) => Click(ys[0], ys[1])
    case KeyDown(_, _) => KeyDown(ys[0], ys[1])
    case KeyUp(_, _) => KeyUp(ys[0], ys[1])
    case KeyPress(_, _) => KeyPress(ys[0], ys[1])
    case Script(_, _) => Script(ys[0], ys[1])
  }

  /** Effect `e` with its cells replaced by `ys`, in slot order; a Call keeps its group. */
  function WithSlots(e: Effect, ys: seq<CellId>): (r: Effect)
    requires |ys| == |Slots(e)|
    ensures SameKind(e.kind, r.kind) && Slots(r) == ys
  {
    var b := EffectBase(ys[0], ys[1], ys[2], ys[3], ys[4], ys[5], ys[6], ys[7], ys[8]);
    var k := (match e.kind
      case ADouble(_, _, _, _) => ADouble(ys[9], ys[10], ys[11], ys[12])
      case AInt(_, _, _, _) => AInt(ys[9], ys[10], ys[11], ys[12])
      case AColor(_, _, _) => AColor(ys[9], ys[10], ys[11])
      case AScreenPos(_, _, _, _) => AScreenPos(ys[9], ys[10], ys[11], ys[12])
      case ABool(_, _, _) => ABool(ys[9], ys[10], ys[11])
      case AString(_, _, _, _) => AString(ys[9], ys[10], ys[11], ys[12])
      case Call(g, _) => Call(g, ys[9])
      case SetState(_) => SetState(ys[9])
      case AnimAction(_) => AnimAction(ys[9])
      case PlaySound(_, _) => PlaySound(ys[9], ys[10]));
    assert BaseSlots(b) == ys[..9];
    assert KindSlots(k) == ys[9..];
    Effect(b, k)
  }

  /** The first `|r|` activations of `acts` are cloned in `r`, in order. */
  ghost predicate ActsCloneOf(orig: seq<Cell>, rank: seq<nat>, cells: seq<Cell>, acts: seq<Activation>, r: seq<Activation>)
    requires Ranked(orig, rank) && forall i :: 0 <= i < |acts| ==> CellsIn(ActSlots(acts[i]), |orig|)
  {
    |r| <= |acts| && forall i :: 0 <= i < |r| ==> ActCloneOf(orig, rank, cells, acts[i], r[i])
  }

  /** The first `|r|` effects of `effs` are cloned in `r`, in order. */
  ghost predicate EffectsCloneOf(orig: seq<Cell>, rank: seq<nat>, cells: seq<Cell>, effs: seq<Effect>, r: seq<Effect>)
    requires Ranked(orig, rank) && forall i :: 0 <= i < |effs| ==> CellsIn(Slots(effs[i]), |orig|)
  {
    |r| <= |effs| && forall i :: 0 <= i < |r| ==> EffectCloneOf(orig, rank, cells, effs[i], r[i])
  }

  /** A further activation clone, in a store grown from `before`, extends the cloned prefix by one. */
  lemma ActsCloneStep(orig: seq<Cell>, rank: seq<nat>, before: seq<Cell>, cells: seq<Cell>,
                      acts: seq<Activation>, r: seq<Activation>, b: Activation)
    requires Ranked(orig, rank) && forall i :: 0 <= i < |acts| ==> CellsIn(ActSlots(acts[i]), |orig|)
    requires |before| <= |cells| && forall i :: 0 <= i < |before| ==> cells[i] == before[i]
    requires ActsCloneOf(orig, rank, before, acts, r) && |r| < |acts|
    requires ActCloneOf(orig, rank, cells, acts[|r|], b)
    ensures ActsCloneOf(orig, rank, cells, acts, r + [b])
  {
    forall j | 0 <= j < |r|
      ensures ActCloneOf(orig, rank, cells, acts[j], r[j])
    {
      ActCloneOfGrows(orig, rank, before, cells, acts[j], r[j]);
    }
  }

  /** A further effect clone, in a store grown from `before`, extends the cloned prefix by one. */
  lemma EffectsCloneStep(orig: seq<Cell>, rank: seq<nat>, before: seq<Cell>, cells: seq<Cell>,
                         effs: seq<Effect>, r: seq<Effect>, c: Effect)
    requires Ranked(orig, rank) && forall i :: 0 <= i < |effs| ==> CellsIn(Slots(effs[i]), |orig|)
    requires |before| <= |cells| && forall i :: 0 <= i < |before| ==> cells[i] == before[i]
    requires EffectsCloneOf(orig, rank, before, effs, r) && |r| < |effs|
    requires EffectCloneOf(orig, rank, cells, effs[|r|], c)
    ensures EffectsCloneOf(orig, rank, cells, effs, r + [c])
  {
    forall j | 0 <= j < |r|
      ensures EffectCloneOf(orig, rank, cells, effs[j], r[j])
    {
      EffectCloneOfGrows(orig, rank, before, cells, effs[j], r[j]);
    }
  }

  /** `Clone` of cell `x`, stated against `orig`, an earlier state of the store. */
  method CloneCell(cells: Store.CellStore, x: CellId, ghost orig: seq<Cell>, ghost rank0: seq<nat>, ghost rank: seq<nat>)
    returns (d: CellId, ghost rank': seq<nat>)
    requires cells.Valid() && Ranked(orig, rank0) && Ranked(cells.cells, rank)
    requires Cloning.Extends(orig, rank0, cells.cells, rank) && x < |orig|
    modifies cells
    ensures cells.Valid() && Ranked(cells.cells, rank')
    ensures Cloning.Extends(old(cells.cells), rank, cells.cells, rank') && Cloning.Extends(orig, rank0, cells.cells, rank')
    ensures Cloning.CloneOf(orig, rank0, cells.cells, d, x) && old(|cells.cells|) <= d
  {
    d, rank' := cells.Clone(x, rank);
    Cloning.CloneOfBase(orig, rank0, old(cells.cells), rank, cells.cells, d, x);
  }

  /** `AnimationGroup.MoveTargets`: activations, effects and EffectTiming redirected; name and hooks kept. */
  function MoveGroup(g: Group, conv: Conversion, anims: map<GroupId, GroupId>): Group
  {
    g.(activations := MoveActs(g.activations, conv, anims), effects := MoveEffects(g.effects, conv, anims),
       effectTiming := Conv1(conv, g.effectTiming))
  }

  function MoveActs(acts: seq<Activation>, conv: Conversion, anims: map<GroupId, GroupId>): (r: seq<Activation>)
    ensures |r| == |acts| && forall i :: 0 <= i < |acts| ==> r[i] == MoveAct(acts[i], conv, anims)
  {
    seq(|acts|, i requires 0 <= i < |acts| => MoveAct(acts[i], conv, anims))
  }

  function MoveEffects(effs: seq<Effect>, conv: Conversion, anims: map<GroupId, GroupId>): (r: seq<Effect>)
    ensures |r| == |effs| && forall i :: 0 <= i < |effs| ==> r[i] == MoveEffect(effs[i], conv, anims)
  {
    seq(|effs|, i requires 0 <= i < |effs| => MoveEffect(effs[i], conv, anims))
  }

  /** Moving a group twice through maps whose images are not keys is moving it once. */
  lemma MoveGroupIdempotent(g: Group, conv: Conversion, anims: map<GroupId, GroupId>)
    requires ImagesNotKeys(conv) && GroupImagesNotKeys(anims)
    ensures MoveGroup(MoveGroup(g, conv, anims), conv, anims) == MoveGroup(g, conv, anims)
  {
    var r := MoveGroup(g, conv, anims);
    var rr := MoveGroup(r, conv, anims);
    forall i | 0 <= i < |g.activations|
      ensures rr.activations[i] == r.activations[i]
    {
      MoveActIdempotent(g.activations[i], conv, anims);
    }
    forall i | 0 <= i < |g.effects|
      ensures rr.effects[i] == r.effects[i]
    {
      MoveEffectIdempotent(g.effects[i], conv, anims);
    }
    Conv1Idempotent(conv, g.effectTiming);
  }

  /** Empty maps leave a group as it is. */
  lemma MoveGroupEmpty(g: Group)
    ensures MoveGroup(g, map[], map[]) == g
  {
    var r := MoveGroup(g, map[], map[]);
    assert r.activations == g.activations;
    assert r.effects == g.effects;
  }

  /** Moving keeps a group's cells in the store when every image is in it. */
  lemma MoveGroupIn(g: Group, conv: Conversion, anims: map<GroupId, GroupId>, n: nat)
    requires GroupIn(g, n) && ImagesIn(conv, n)
    ensures GroupIn(MoveGroup(g, conv, anims), n)
  {
    var r := MoveGroup(g, conv, anims);
    forall i | 0 <= i < |g.activations|
      ensures CellsIn(ActSlots(r.activations[i]), n)
    {
      MoveActMeaning(g.activations[i], conv, anims);
    }
    forall i | 0 <= i < |g.effects|
      ensures CellsIn(Slots(r.effects[i]), n)
    {
      MoveEffectMeaning(g.effects[i], conv, anims);
    }
  }

  /**
   * No cell of `g` but a Repeat cell is a key of the conversion map, and no
   * group a Call starts or an AfterAnimation waits for is a key of the
   * group map: every reference the flattener redirects points at an image.
   */
  ghost predicate Redirected(g: Group, conv: Conversion, anims: map<GroupId, GroupId>)
  {
    && (forall i, j :: 0 <= i < |g.activations| && 0 <= j < |ActSlots(g.activations[i])| ==>
          ActSlots(g.activations[i])[j] !in conv)
    && (forall i :: 0 <= i < |g.activations| && g.activations[i].AfterAnimation? ==> g.activations[i].effect !in anims)
    && (forall i, j :: 0 <= i < |g.effects| && 0 <= j < |Slots(g.effects[i])| && j != RepeatSlot ==>
          Slots(g.effects[i])[j] !in conv)
    && (forall i :: 0 <= i < |g.effects| && g.effects[i].kind.Call? ==> g.effects[i].kind.group !in anims)
    && g.effectTiming !in conv
  }

  /** When no image is a key, a moved group is redirected. */
  lemma MoveGroupRedirects(g: Group, conv: Conversion, anims: map<GroupId, GroupId>)
    requires ImagesNotKeys(conv) && GroupImagesNotKeys(anims)
    ensures Redirected(MoveGroup(g, conv, anims), conv, anims)
  {
    var r := MoveGroup(g, conv, anims);
    forall i | 0 <= i < |g.activations|
      ensures forall j :: 0 <= j < |ActSlots(r.activations[i])| ==> ActSlots(r.activations[i])[j] !in conv
      ensures r.activations[i].AfterAnimation? ==> r.activations[i].effect !in anims
    {
      MoveActMeaning(g.activations[i], conv, anims);
    }
    forall i | 0 <= i < |g.effects|
      ensures forall j :: 0 <= j < |Slots(r.effects[i])| && j != RepeatSlot ==> Slots(r.effects[i])[j] !in conv
      ensures r.effects[i].kind.Call? ==> r.effects[i].kind.group !in anims
    {
      MoveEffectMeaning(g.effects[i], conv, anims);
    }
  }

  /**
   * The groups of the program, by identity, and the store of the cells they
   * refer to.
   */
  class GroupStore {
    var groups: seq<Group>
    const cells: Store.CellStore
    /** Ranks witnessing that no cell of the store reaches itself through its references. */
    ghost var rank: seq<nat>

    /** The cell store is well formed and ranked, and every group's cells lie in it. */
    ghost predicate Valid()
      reads this, cells
    {
      cells.Valid() && Ranked(cells.cells, rank) && forall g :: 0 <= g < |groups| ==> GroupIn(groups[g], |cells.cells|)
    }

    constructor (cells: Store.CellStore, ghost rank: seq<nat>)
      requires cells.Valid() && Ranked(cells.cells, rank)
      ensures Valid() && groups == [] && this.cells == cells && this.rank == rank
    {
      groups := [];
      this.cells := cells;
      this.rank := rank;
    }

    /** Adds a group whose cells are in the store; its identity is its index. */
    method Add(g: Group) returns (id: GroupId)
      requires Valid() && GroupIn(g, |cells.cells|)
      modifies this`groups
      ensures Valid() && groups == old(groups) + [g] && id == |old(groups)|
    {
      id := |groups|;
      groups := groups + [g];
    }

    /** The cells grew: every group's cells lie in the larger store too. */
    lemma GroupsGrow(n: nat, n': nat)
      requires n <= n' && forall g :: 0 <= g < |groups| ==> GroupIn(groups[g], n)
      ensures forall g :: 0 <= g < |groups| ==> GroupIn(groups[g], n')
    {
    }

    /**
     * `AnimationGroup.Clone`: each activation, then each effect, then the
     * EffectTiming cloned into the cell store; the clone is appended.
     */
    method Clone(g: GroupId) returns (d: GroupId)
      requires Valid() && g < |groups|
      modifies this, cells
      ensures Valid() && d == |old(groups)| && |groups| == d + 1 && groups == old(groups) + [groups[d]]
      ensures Cloning.Extends(old(cells.cells), old(rank), cells.cells, rank)
      ensures GroupCloneOf(old(cells.cells), old(rank), cells.cells, old(groups)[g], groups[d])
    {
      var src := groups[g];
      ghost var orig, rank0 := cells.cells, rank;
      var acts := CloneActivations(src.activations);
      ghost var mid, rank1 := cells.cells, rank;
      var effs := CloneEffectList(src.effects);
      ghost var mid2, rank2 := cells.cells, rank;
      var t;
      t, rank := CloneCell(cells, src.effectTiming, orig, rank0, rank);
      var c := Group(acts, effs, src.name, t, []);
      GroupCloneAssembled(orig, rank0, mid, rank1, mid2, rank2, cells.cells, src, c);
      GroupCloneIn(orig, rank0, cells.cells, src, c);
      GroupsGrow(|orig|, |cells.cells|);
      d := |groups|;
      groups := groups + [c];
    }

    /** The loop of `AnimationGroup.Clone` over the activations: each cloned in order. */
    method CloneActivations(acts: seq<Activation>) returns (r: seq<Activation>)
      requires Valid() && forall i :: 0 <= i < |acts| ==> CellsIn(ActSlots(acts[i]), |cells.cells|)
      modifies this`rank, cells
      ensures Valid() && Cloning.Extends(old(cells.cells), old(rank), cells.cells, rank)
      ensures |r| == |acts| && ActsCloneOf(old(cells.cells), old(rank), cells.cells, acts, r)
    {
      ghost var orig, rank0 := cells.cells, rank;
      r := [];
      while |r| < |acts|
        invariant Valid() && Cloning.Extends(orig, rank0, cells.cells, rank)
        invariant ActsCloneOf(orig, rank0, cells.cells, acts, r)
        decreases |acts| - |r|
      {
        ghost var before, rankb := cells.cells, rank;
        var a := acts[|r|];
        var ys := CloneSlots(ActSlots(a), ActRoles(a));
        SlotsCloneOfBase(orig, rank0, before, rankb, cells.cells, ActRoles(a), ActSlots(a), ys);
        var b := WithActSlots(a, ys);
        ActsCloneStep(orig, rank0, before, cells.cells, acts, r, b);
        r := r + [b];
      }
    }

    /** The loop of `AnimationGroup.Clone` over the effects: each cloned in order. */
    method CloneEffectList(effs: seq<Effect>) returns (r: seq<Effect>)
      requires Valid() && forall i :: 0 <= i < |effs| ==> CellsIn(Slots(effs[i]), |cells.cells|)
      modifies this`rank, cells
      ensures Valid() && Cloning.Extends(old(cells.cells), old(rank), cells.cells, rank)
      ensures |r| == |effs| && EffectsCloneOf(old(cells.cells), old(rank), cells.cells, effs, r)
    {
      ghost var orig, rank0 := cells.cells, rank;
      r := [];
      while |r| < |effs|
        invariant Valid() && Cloning.Extends(orig, rank0, cells.cells, rank)
        invariant EffectsCloneOf(orig, rank0, cells.cells, effs, r)
        decreases |effs| - |r|
      {
        ghost var before, rankb := cells.cells, rank;
        var e := effs[|r|];
        var ys := CloneSlots(Slots(e), EffectRoles(e));
        SlotsCloneOfBase(orig, rank0, before, rankb, cells.cells, EffectRoles(e), Slots(e), ys);
        var c := WithSlots(e, ys);
        EffectsCloneStep(orig, rank0, before, cells.cells, effs, r, c);
        r := r + [c];
      }
    }

    /**
     * The cells of one activation or effect in slot order, each as its role
     * says: kept (the animated target), cloned, or replaced by a new default
     * Repeat cell (the one the effect's constructor makes).
     */
    method CloneSlots(xs: seq<CellId>, roles: seq<Role>) returns (ys: seq<CellId>)
      requires Valid() && |roles| == |xs| && CellsIn(xs, |cells.cells|)
      modifies this`rank, cells
      ensures Valid() && Cloning.Extends(old(cells.cells), old(rank), cells.cells, rank)
      ensures SlotsCloneOf(old(cells.cells), old(rank), cells.cells, roles, xs, ys)
    {
      ghost var orig, rank0 := cells.cells, rank;
      ys := [];
      var i := 0;
      while i < |xs|
        invariant 0 <= i <= |xs| && |ys| == i
        invariant Valid() && Cloning.Extends(orig, rank0, cells.cells, rank)
        invariant forall j :: 0 <= j < i ==> SlotCloneOf(orig, rank0, cells.cells, roles[j], xs[j], ys[j])
      {
        ghost var before := cells.cells;
        var y;
        match roles[i] {
          case Shared =>
            y := xs[i];
          case Copied =>
            y, rank := CloneCell(cells, xs[i], orig, rank0, rank);
          case Renewed =>
            y := cells.NewWrapper(Unnamed, KRepeat, rank);
            rank := rank + [0];
        }
        forall j | 0 <= j < i
          ensures SlotCloneOf(orig, rank0, cells.cells, roles[j], xs[j], ys[j])
        {
          if roles[j] == Copied {
            Cloning.CloneOfGrows(orig, rank0, before, cells.cells, ys[j], xs[j]);
          }
        }
        GroupsGrow(|before|, |cells.cells|);
        ys := ys + [y];
        i := i + 1;
      }
    }

    /** `Clone` of cell `x` of `orig`, an earlier state of the store, keeping every group's cells in the store. */
    method CloneParam(x: CellId, ghost orig: seq<Cell>, ghost rank0: seq<nat>) returns (c: CellId)
      requires Valid() && Ranked(orig, rank0) && Cloning.Extends(orig, rank0, cells.cells, rank) && x < |orig|
      modifies this`rank, cells
      ensures Valid() && Cloning.Extends(orig, rank0, cells.cells, rank)
      ensures Cloning.Extends(old(cells.cells), old(rank), cells.cells, rank)
      ensures Cloning.CloneOf(orig, rank0, cells.cells, c, x) && old(|cells.cells|) <= c
    {
      ghost var before := cells.cells;
      c, rank := CloneCell(cells, x, orig, rank0, rank);
      GroupsGrow(|before|, |cells.cells|);
    }

    /** `AnimationGroup.MoveTargets`, redirecting each activation and effect in place. */
    method MoveTargets(g: GroupId, conv: Conversion, anims: map<GroupId, GroupId>)
      requires Valid() && g < |groups| && ImagesIn(conv, |cells.cells|)
      modifies this`groups
      ensures Valid() && groups == old(groups)[g := MoveGroup(old(groups)[g], conv, anims)]
    {
      var grp := groups[g];
      var acts := MoveActivations(grp.activations, conv, anims);
      var effs := MoveEffectList(grp.effects, conv, anims);
      MoveGroupIn(grp, conv, anims, |cells.cells|);
      groups := groups[g := grp.(activations := acts, effects := effs, effectTiming := Conv1(conv, grp.effectTiming))];
    }
  }

  /** The loop of `AnimationGroup.MoveTargets` over the activations. */
  method MoveActivations(acts: seq<Activation>, conv: Conversion, anims: map<GroupId, GroupId>) returns (r: seq<Activation>)
    ensures r == MoveActs(acts, conv, anims)
  {
    r := acts;
    var i := 0;
    while i < |r|
      invariant 0 <= i <= |r| && |r| == |acts|
      invariant forall j :: 0 <= j < i ==> r[j] == MoveAct(acts[j], conv, anims)
      invariant forall j :: i <= j < |r| ==> r[j] == acts[j]
    {
      r := r[i := MoveAct(r[i], conv, anims)];
      i := i + 1;
    }
  }

  /** The loop of `AnimationGroup.MoveTargets` over the effects. */
  method MoveEffectList(effs: seq<Effect>, conv: Conversion, anims: map<GroupId, GroupId>) returns (r: seq<Effect>)
    ensures r == MoveEffects(effs, conv, anims)
  {
    r := effs;
    var i := 0;
    while i < |r|
      invariant 0 <= i <= |r| && |r| == |effs|
      invariant forall j :: 0 <= j < i ==> r[j] == MoveEffect(effs[j], conv, anims)
      invariant forall j :: i <= j < |r| ==> r[j] == effs[j]
    {
      r := r[i := MoveEffect(r[i], conv, anims)];
      i := i + 1;
    }
  }
}
