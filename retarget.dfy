/**
 * Redirecting the references of cells through the flattener's conversion
 * map: the reference slots of a cell, what a cell looks like once every
 * slot has been passed through the map, and the relation between a store
 * and the store a partial walk leaves behind.
 */
module Retarget {
  import opened Wrappers
  import opened Values
  import opened Cells
  import MathCheck

  /** `helper.Conversion`: original cell to its replacement, by identity. */
  type Conversion = map<CellId, CellId>

  /** A reference after one lookup: its image when the map has one. */
  function Conv1(conv: Conversion, x: CellId): (y: CellId)
    ensures x !in conv ==> y == x
    ensures x in conv ==> y == conv[x]
  {
    if x in conv then conv[x] else x
  }

  /** No replacement is itself replaced: looking up twice is looking up once. */
  ghost predicate ImagesNotKeys(conv: Conversion)
  {
    forall k :: k in conv ==> conv[k] !in conv
  }

  /** Every replacement is a cell of the store. */
  ghost predicate ImagesIn(conv: Conversion, n: nat)
  {
    forall k :: k in conv ==> conv[k] < n
  }

  lemma Conv1Idempotent(conv: Conversion, x: CellId)
    requires ImagesNotKeys(conv)
    ensures Conv1(conv, Conv1(conv, x)) == Conv1(conv, x)
  {
  }

  /** The cell `x` with its reference slots, in `ReadRefs` order, replaced by `refs`. */
  function WithRefs(x: Cell, refs: seq<CellId>): (y: Cell)
    requires |refs| == |x.ReadRefs()|
    ensures y.ReadRefs() == refs
    ensures y.Typed() == x.Typed() && y.IsNode() == x.IsNode() && y.Wrapper? == x.Wrapper?
    ensures y.Typed() ==> y.kind == x.kind && y.id == x.id
    ensures y.present == x.present && y.name == x.name
    ensures y.IsNode() ==> y.precompile == x.precompile && y.buffer == x.buffer
  {
    match x
    case Wrapper(id, name, present, kind, value, remote) =>
      Wrapper(id, name, present, kind, value, if |refs| == 0 then None else Some(refs[0]))
    case MathValue(id, name, present, kind, value, remote, _, valueType) =>
      MathValue(id, name, present, kind, value, remote, refs[0], valueType)
    case CalcNode(name, present, op, t, _, precompile, buffer) =>
      CalcNode(name, present, op, t, refs, precompile, buffer)
    case IfNode(name, present, _, _, _, precompile, buffer) =>
      IfNode(name, present, refs[0], refs[1], refs[2], precompile, buffer)
    case CheckNode(name, present, mode, _, _, precompile, buffer) =>
      CheckNode(name, present, mode, refs[0], refs[1], precompile, buffer)
  }

  lemma WithRefsSame(x: Cell)
    ensures WithRefs(x, x.ReadRefs()) == x
  {
  }

  lemma WithRefsTwice(x: Cell, r1: seq<CellId>, r2: seq<CellId>)
    requires |r1| == |x.ReadRefs()| == |r2|
    ensures WithRefs(WithRefs(x, r1), r2) == WithRefs(x, r2)
  {
  }

  /** `y` is `x` with possibly other references and nothing else changed. */
  ghost predicate SameShape(x: Cell, y: Cell)
  {
    |y.ReadRefs()| == |x.ReadRefs()| && y == WithRefs(x, y.ReadRefs())
  }

  /** The cell `x` with every reference slot passed through the map. */
  function Moved(conv: Conversion, x: Cell): (y: Cell)
    ensures SameShape(x, y)
    ensures forall k :: 0 <= k < |x.ReadRefs()| ==> y.ReadRefs()[k] == Conv1(conv, x.ReadRefs()[k])
  {
    var refs := x.ReadRefs();
    WithRefs(x, seq(|refs|, k requires 0 <= k < |refs| => Conv1(conv, refs[k])))
  }

  /** Each slot of `y` is the slot of `x` either left alone or replaced by its image. */
  ghost predicate SlotsMoved(conv: Conversion, x: Cell, y: Cell)
  {
    && SameShape(x, y)
    && forall k :: 0 <= k < |x.ReadRefs()| ==>
         y.ReadRefs()[k] == x.ReadRefs()[k] || y.ReadRefs()[k] == Conv1(conv, x.ReadRefs()[k])
  }

  /** Cells change only in their references. */
  ghost predicate StoreShaped(a: seq<Cell>, b: seq<Cell>)
  {
    |b| == |a| && forall i :: 0 <= i < |a| ==> SameShape(a[i], b[i])
  }

  /** Every cell of `b` is its cell of `a` with some slots replaced by their images. */
  ghost predicate StoreMoved(conv: Conversion, a: seq<Cell>, b: seq<Cell>)
  {
    |b| == |a| && forall i :: 0 <= i < |a| ==> SlotsMoved(conv, a[i], b[i])
  }

  lemma SameShapeTransitive(x: Cell, y: Cell, z: Cell)
    requires SameShape(x, y) && SameShape(y, z)
    ensures SameShape(x, z)
  {
    WithRefsTwice(x, y.ReadRefs(), z.ReadRefs());
  }

  lemma StoreShapedTransitive(a: seq<Cell>, b: seq<Cell>, c: seq<Cell>)
    requires StoreShaped(a, b) && StoreShaped(b, c)
    ensures StoreShaped(a, c)
  {
    forall i | 0 <= i < |a| ensures SameShape(a[i], c[i]) {
      SameShapeTransitive(a[i], b[i], c[i]);
    }
  }

  lemma StoreMovedReflexive(conv: Conversion, a: seq<Cell>)
    ensures StoreMoved(conv, a, a) && StoreShaped(a, a)
  {
    forall i | 0 <= i < |a| ensures SlotsMoved(conv, a[i], a[i]) {
      WithRefsSame(a[i]);
    }
  }

  /**
   * When no image is itself a key, moving twice is moving once: a walk
   * that reaches a cell again leaves its slots where the first visit put
   * them.
   */
  lemma {:induction false} SlotsMovedTransitive(conv: Conversion, x: Cell, y: Cell, z: Cell)
    requires ImagesNotKeys(conv) && SlotsMoved(conv, x, y) && SlotsMoved(conv, y, z)
    ensures SlotsMoved(conv, x, z)
  {
    SameShapeTransitive(x, y, z);
    forall k | 0 <= k < |x.ReadRefs()|
      ensures z.ReadRefs()[k] == x.ReadRefs()[k] || z.ReadRefs()[k] == Conv1(conv, x.ReadRefs()[k])
    {
      Conv1Idempotent(conv, x.ReadRefs()[k]);
    }
  }

  lemma StoreMovedTransitive(conv: Conversion, a: seq<Cell>, b: seq<Cell>, c: seq<Cell>)
    requires ImagesNotKeys(conv) && StoreMoved(conv, a, b) && StoreMoved(conv, b, c)
    ensures StoreMoved(conv, a, c)
  {
    forall i | 0 <= i < |a| ensures SlotsMoved(conv, a[i], c[i]) {
      SlotsMovedTransitive(conv, a[i], b[i], c[i]);
    }
  }

  /** A moved cell moves no further: the images are not keys. */
  lemma {:induction false} MovedIsFinal(conv: Conversion, x: Cell, y: Cell)
    requires ImagesNotKeys(conv) && SlotsMoved(conv, Moved(conv, x), y)
    ensures y == Moved(conv, x)
  {
    var m := Moved(conv, x);
    forall k | 0 <= k < |m.ReadRefs()| ensures y.ReadRefs()[k] == m.ReadRefs()[k] {
      Conv1Idempotent(conv, x.ReadRefs()[k]);
    }
    assert y.ReadRefs() == m.ReadRefs();
    WithRefsTwice(x, m.ReadRefs(), y.ReadRefs());
  }

  /** The cell `x` with its `k`-th reference slot replaced by `s`. */
  function WithSlot(x: Cell, k: nat, s: CellId): (y: Cell)
    requires k < |x.ReadRefs()|
    ensures SameShape(x, y) && y.ReadRefs() == x.ReadRefs()[k := s]
  {
    WithRefs(x, x.ReadRefs()[k := s])
  }

  /**
   * Replacing one slot of cell `c` by `img`, where a typed cell only takes
   * a typed cell of its own type: the store keeps its typing, its ids, and
   * its references in range.
   */
  lemma SlotKeepsTyped(cells: seq<Cell>, c: CellId, k: nat, img: CellId, n: int)
    requires WellTyped(cells) && Closed(cells) && c < |cells| && k < |cells[c].ReadRefs()| && img < |cells|
    requires cells[c].Wrapper? ==> cells[img].Typed() && cells[img].kind == cells[c].kind
    ensures var b := cells[c := WithSlot(cells[c], k, img)];
      && WellTyped(b) && Closed(b) && StoreShaped(cells, b)
      && (IdsBelow(cells, n) ==> IdsBelow(b, n)) && (IdsDistinct(cells) ==> IdsDistinct(b))
  {
    var b := cells[c := WithSlot(cells[c], k, img)];
    assert forall i :: 0 <= i < |b| ==> b[i].Typed() == cells[i].Typed();
    assert forall i :: 0 <= i < |b| && b[i].Typed() ==> b[i].id == cells[i].id && b[i].kind == cells[i].kind;
    forall i | 0 <= i < |b| ensures SameShape(cells[i], b[i]) {
      if i != c { WithRefsSame(cells[i]); }
    }
    forall i, j | 0 <= i < |b| && j in b[i].ReadRefs() ensures j < |b| {
      if i == c && j !in cells[c].ReadRefs() {
        assert j == img;
      }
    }
    forall i | 0 <= i < |b| && b[i].Typed()
      ensures Fits(b[i].kind, b[i].value)
      ensures b[i].remote.Some? ==>
        b[i].remote.value < |b| && b[b[i].remote.value].Typed() && b[b[i].remote.value].kind == b[i].kind
    {
      if i == c && cells[c].Wrapper? && b[i].remote.Some? {
        assert b[i].ReadRefs() == [b[i].remote.value];
      }
    }
  }

  /**
   * `Check.MoveTargets` as written: the second operand's image is stored
   * into the first operand, and the second operand keeps its reference.
   */
  function CheckMoveAsWritten(conv: Conversion, left: CellId, right: CellId): (r: (CellId, CellId))
    ensures r.1 == right
    ensures right in conv ==> r.0 == conv[right]
    ensures right !in conv ==> r.0 == Conv1(conv, left)
  {
    var left1 := if left in conv then conv[left] else left;
    var left2 := if right in conv then conv[right] else left1;
    (left2, right)
  }

  /** A mapped second operand is never redirected, and the first one takes its image. */
  lemma CheckMoveAsWrittenMisroutes()
    ensures CheckMoveAsWritten(map[7 := 9], 1, 7) == (9, 7)
    ensures Moved(map[7 := 9], CheckNode("Check", true, MathCheck.Eq, 1, 7, false, None)).ReadRefs() == [1, 9]
  {
    var m := Moved(map[7 := 9], CheckNode("Check", true, MathCheck.Eq, 1, 7, false, None));
    assert m.ReadRefs()[0] == 1 && m.ReadRefs()[1] == 9;
  }
}
