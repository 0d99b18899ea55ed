/**
 * What `Clone` promises, stated over the store before and after: a typed
 * cell is copied shallowly, sharing its remote source; a math value and
 * the expression nodes are copied deeply, each child by its own clone,
 * and the copies start with empty buffers.
 */
module Cloning {
  import opened Wrappers
  import opened Values
  import opened Cells

  /** `cells` is `orig` with new cells appended and the old ones untouched. */
  ghost predicate Extends(orig: seq<Cell>, rank: seq<nat>, cells: seq<Cell>, rank': seq<nat>)
  {
    && |orig| <= |cells| && |rank| == |orig| && |rank'| == |cells|
    && (forall i :: 0 <= i < |orig| ==> cells[i] == orig[i])
    && (forall i :: 0 <= i < |orig| ==> rank'[i] == rank[i])
  }

  /**
   * `d` in `cells` is a clone of the cell `c` of `orig`, the store the
   * clone was taken from, made of cells appended after `orig`.
   */
  ghost predicate CloneOf(orig: seq<Cell>, rank: seq<nat>, cells: seq<Cell>, d: CellId, c: CellId)
    requires Ranked(orig, rank) && c < |orig|
    decreases rank[c]
  {
    && |orig| <= d < |cells|
    && match orig[c]
       case Wrapper(_, name, present, kind, value, remote) =>
         cells[d].Wrapper? && cells[d] == Wrapper(cells[d].id, name, present, kind, value, remote)
       case MathValue(_, name, present, kind, _, _, source, valueType) =>
         && cells[d].MathValue?
         && cells[d] == MathValue(cells[d].id, name, present, kind, Default(kind), None, cells[d].source, valueType)
         && (RefRank(orig, rank, c, source);
             CloneOf(orig, rank, cells, cells[d].source, source))
       case CalcNode(name, present, op, t, ops, precompile, _) =>
         && cells[d].CalcNode?
         && cells[d] == CalcNode(name, present, op, t, cells[d].operands, precompile, None)
         && |cells[d].operands| == |ops|
         && (OperandsRanked(orig, rank, c);
             forall k :: 0 <= k < |ops| ==> CloneOf(orig, rank, cells, cells[d].operands[k], ops[k]))
       case IfNode(name, present, cond, onTrue, onFalse, precompile, _) =>
         && cells[d].IfNode?
         && cells[d] == IfNode(name, present, cells[d].cond, cells[d].onTrue, cells[d].onFalse, precompile, None)
         && (RefRank(orig, rank, c, cond);
             RefRank(orig, rank, c, onTrue);
             RefRank(orig, rank, c, onFalse);
             && CloneOf(orig, rank, cells, cells[d].cond, cond)
             && CloneOf(orig, rank, cells, cells[d].onTrue, onTrue)
             && CloneOf(orig, rank, cells, cells[d].onFalse, onFalse))
       case CheckNode(name, present, mode, left, right, precompile, _) =>
         && cells[d].CheckNode?
         && cells[d] == CheckNode(name, present, mode, cells[d].left, cells[d].right, precompile, None)
         && (RefRank(orig, rank, c, left);
             RefRank(orig, rank, c, right);
             && CloneOf(orig, rank, cells, cells[d].left, left)
             && CloneOf(orig, rank, cells, cells[d].right, right))
  }

  /** Appending further cells, or changing only cells past the clone's store, keeps a clone a clone. */
  lemma {:induction false} CloneOfGrows(orig: seq<Cell>, rank: seq<nat>, cells: seq<Cell>, cells': seq<Cell>,
                                        d: CellId, c: CellId)
    requires Ranked(orig, rank) && c < |orig| && |cells| <= |cells'|
    requires forall i :: |orig| <= i < |cells| ==> cells'[i] == cells[i]
    requires CloneOf(orig, rank, cells, d, c)
    ensures CloneOf(orig, rank, cells', d, c)
    decreases rank[c]
  {
    assert cells'[d] == cells[d];
    match orig[c]
    case Wrapper(_, _, _, _, _, _) =>
    case MathValue(_, _, _, _, _, _, source, _) =>
      RefRank(orig, rank, c, source);
      CloneOfGrows(orig, rank, cells, cells', cells[d].source, source);
    case CalcNode(_, _, _, _, ops, _, _) =>
      OperandsRanked(orig, rank, c);
      forall k | 0 <= k < |ops| ensures CloneOf(orig, rank, cells', cells'[d].operands[k], ops[k]) {
        CloneOfGrows(orig, rank, cells, cells', cells[d].operands[k], ops[k]);
      }
    case IfNode(_, _, cond, onTrue, onFalse, _, _) =>
      RefRank(orig, rank, c, cond);
      RefRank(orig, rank, c, onTrue);
      RefRank(orig, rank, c, onFalse);
      CloneOfGrows(orig, rank, cells, cells', cells[d].cond, cond);
      CloneOfGrows(orig, rank, cells, cells', cells[d].onTrue, onTrue);
      CloneOfGrows(orig, rank, cells, cells', cells[d].onFalse, onFalse);
    case CheckNode(_, _, _, left, right, _, _) =>
      RefRank(orig, rank, c, left);
      RefRank(orig, rank, c, right);
      CloneOfGrows(orig, rank, cells, cells', cells[d].left, left);
      CloneOfGrows(orig, rank, cells, cells', cells[d].right, right);
  }

  /** Appending cells changes no read of an old cell. */
  lemma {:induction false} EvalPrefix(orig: seq<Cell>, rank: seq<nat>, cells: seq<Cell>, rank': seq<nat>, c: CellId)
    requires Ranked(orig, rank) && Ranked(cells, rank') && Extends(orig, rank, cells, rank') && c < |orig|
    ensures Eval(cells, rank', c) == Eval(orig, rank, c)
    decreases rank[c], 1
  {
    match orig[c]
    case Wrapper(_, _, _, _, _, remote) =>
      if remote.Some? {
        RefRank(orig, rank, c, remote.value);
        EvalPrefix(orig, rank, cells, rank', remote.value);
      }
    case MathValue(_, _, _, _, _, _, source, _) =>
      RefRank(orig, rank, c, source);
      EvalPrefix(orig, rank, cells, rank', source);
    case _ =>
      ComputedPrefix(orig, rank, cells, rank', c);
  }

  lemma {:induction false} ComputedPrefix(orig: seq<Cell>, rank: seq<nat>, cells: seq<Cell>, rank': seq<nat>, c: CellId)
    requires Ranked(orig, rank) && Ranked(cells, rank') && Extends(orig, rank, cells, rank') && c < |orig|
    requires orig[c].IsNode()
    ensures Computed(cells, rank', c) == Computed(orig, rank, c)
    decreases rank[c], 0
  {
    match orig[c]
    case CalcNode(_, _, _, _, ops, _, _) =>
      forall k | 0 <= k < |ops| ensures OperandResults(cells, rank', c)[k] == OperandResults(orig, rank, c)[k] {
        OperandResult(orig, rank, c, k);
        OperandResult(cells, rank', c, k);
        RefRank(orig, rank, c, ops[k]);
        EvalPrefix(orig, rank, cells, rank', ops[k]);
      }
      assert OperandResults(cells, rank', c) == OperandResults(orig, rank, c);
    case IfNode(_, _, cond, onTrue, onFalse, _, _) =>
      RefRank(orig, rank, c, cond);
      RefRank(orig, rank, c, onTrue);
      RefRank(orig, rank, c, onFalse);
      EvalPrefix(orig, rank, cells, rank', cond);
      EvalPrefix(orig, rank, cells, rank', onTrue);
      EvalPrefix(orig, rank, cells, rank', onFalse);
    case CheckNode(_, _, _, left, right, _, _) =>
      RefRank(orig, rank, c, left);
      RefRank(orig, rank, c, right);
      EvalPrefix(orig, rank, cells, rank', left);
      EvalPrefix(orig, rank, cells, rank', right);
  }

  /**
   * A clone reads as its original does, provided every buffer of the
   * original store holds what its node computes: the clone's buffers are
   * empty and compute afresh.
   */
  lemma {:induction false} CloneReadsAlike(orig: seq<Cell>, rank: seq<nat>, cells: seq<Cell>, rank': seq<nat>,
                                           d: CellId, c: CellId)
    requires Ranked(orig, rank) && Coherent(orig, rank) && Ranked(cells, rank') && Extends(orig, rank, cells, rank')
    requires c < |orig| && CloneOf(orig, rank, cells, d, c)
    ensures Eval(cells, rank', d) == Eval(orig, rank, c)
    decreases rank[c], 1
  {
    match orig[c]
    case Wrapper(_, _, _, _, _, remote) =>
      if remote.Some? {
        RefRank(orig, rank, c, remote.value);
        EvalPrefix(orig, rank, cells, rank', remote.value);
      }
    case MathValue(_, _, _, _, _, _, source, _) =>
      RefRank(orig, rank, c, source);
      CloneReadsAlike(orig, rank, cells, rank', cells[d].source, source);
    case _ =>
      CoherentReadsComputed(orig, rank, c);
      CloneComputesAlike(orig, rank, cells, rank', d, c);
  }

  lemma {:induction false} CloneComputesAlike(orig: seq<Cell>, rank: seq<nat>, cells: seq<Cell>, rank': seq<nat>,
                                              d: CellId, c: CellId)
    requires Ranked(orig, rank) && Coherent(orig, rank) && Ranked(cells, rank') && Extends(orig, rank, cells, rank')
    requires c < |orig| && orig[c].IsNode() && CloneOf(orig, rank, cells, d, c)
    ensures cells[d].IsNode() && Computed(cells, rank', d) == Computed(orig, rank, c)
    decreases rank[c], 0
  {
    match orig[c]
    case CalcNode(_, _, _, _, ops, _, _) =>
      OperandsRanked(orig, rank, c);
      forall k | 0 <= k < |ops| ensures OperandResults(cells, rank', d)[k] == OperandResults(orig, rank, c)[k] {
        OperandResult(orig, rank, c, k);
        OperandResult(cells, rank', d, k);
        CloneReadsAlike(orig, rank, cells, rank', cells[d].operands[k], ops[k]);
      }
      assert OperandResults(cells, rank', d) == OperandResults(orig, rank, c);
    case IfNode(_, _, cond, onTrue, onFalse, _, _) =>
      RefRank(orig, rank, c, cond);
      RefRank(orig, rank, c, onTrue);
      RefRank(orig, rank, c, onFalse);
      CloneReadsAlike(orig, rank, cells, rank', cells[d].cond, cond);
      CloneReadsAlike(orig, rank, cells, rank', cells[d].onTrue, onTrue);
      CloneReadsAlike(orig, rank, cells, rank', cells[d].onFalse, onFalse);
    case CheckNode(_, _, _, left, right, _, _) =>
      RefRank(orig, rank, c, left);
      RefRank(orig, rank, c, right);
      CloneReadsAlike(orig, rank, cells, rank', cells[d].left, left);
      CloneReadsAlike(orig, rank, cells, rank', cells[d].right, right);
  }

  lemma ExtendsTransitive(a: seq<Cell>, ra: seq<nat>, b: seq<Cell>, rb: seq<nat>, c: seq<Cell>, rc: seq<nat>)
    requires Extends(a, ra, b, rb) && Extends(b, rb, c, rc)
    ensures Extends(a, ra, c, rc)
  {
  }

  /** A clone taken from a store that extends `orig` is a clone relative to `orig` as well. */
  lemma {:induction false} CloneOfBase(orig: seq<Cell>, rank: seq<nat>, mid: seq<Cell>, rank': seq<nat>,
                                       cells: seq<Cell>, d: CellId, c: CellId)
    requires Ranked(orig, rank) && Ranked(mid, rank') && Extends(orig, rank, mid, rank') && c < |orig|
    requires CloneOf(mid, rank', cells, d, c)
    ensures CloneOf(orig, rank, cells, d, c)
    decreases rank[c]
  {
    assert mid[c] == orig[c];
    match orig[c]
    case Wrapper(_, _, _, _, _, _) =>
    case MathValue(_, _, _, _, _, _, source, _) =>
      RefRank(orig, rank, c, source);
      CloneOfBase(orig, rank, mid, rank', cells, cells[d].source, source);
    case CalcNode(_, _, _, _, ops, _, _) =>
      OperandsRanked(orig, rank, c);
      OperandsRanked(mid, rank', c);
      forall k | 0 <= k < |ops| ensures CloneOf(orig, rank, cells, cells[d].operands[k], ops[k]) {
        CloneOfBase(orig, rank, mid, rank', cells, cells[d].operands[k], ops[k]);
      }
    case IfNode(_, _, cond, onTrue, onFalse, _, _) =>
      RefRank(orig, rank, c, cond);
      RefRank(orig, rank, c, onTrue);
      RefRank(orig, rank, c, onFalse);
      CloneOfBase(orig, rank, mid, rank', cells, cells[d].cond, cond);
      CloneOfBase(orig, rank, mid, rank', cells, cells[d].onTrue, onTrue);
      CloneOfBase(orig, rank, mid, rank', cells, cells[d].onFalse, onFalse);
    case CheckNode(_, _, _, left, right, _, _) =>
      RefRank(orig, rank, c, left);
      RefRank(orig, rank, c, right);
      CloneOfBase(orig, rank, mid, rank', cells, cells[d].left, left);
      CloneOfBase(orig, rank, mid, rank', cells, cells[d].right, right);
  }

  /** A conditional node whose three children are clones, with an empty buffer, is a clone. */
  lemma CloneOfIf(orig: seq<Cell>, rank: seq<nat>, cells: seq<Cell>, d: CellId, c: CellId)
    requires Ranked(orig, rank) && c < |orig| && orig[c].IfNode? && |orig| <= d < |cells| && cells[d].IfNode?
    requires cells[d] == IfNode(orig[c].name, orig[c].present, cells[d].cond, cells[d].onTrue, cells[d].onFalse,
                                orig[c].precompile, None)
    requires orig[c].cond < |orig| && orig[c].onTrue < |orig| && orig[c].onFalse < |orig|
    requires CloneOf(orig, rank, cells, cells[d].cond, orig[c].cond)
    requires CloneOf(orig, rank, cells, cells[d].onTrue, orig[c].onTrue)
    requires CloneOf(orig, rank, cells, cells[d].onFalse, orig[c].onFalse)
    ensures CloneOf(orig, rank, cells, d, c)
  {
  }

  /** Clones taken one after another, each appended after the previous ones, stay clones. */
  lemma ClonesAppend(orig: seq<Cell>, rank: seq<nat>, before: seq<Cell>, cells: seq<Cell>,
                     prev: seq<CellId>, d: CellId, ops: seq<CellId>)
    requires Ranked(orig, rank) && |prev| < |ops| && forall k :: 0 <= k < |ops| ==> ops[k] < |orig|
    requires |before| <= |cells| && forall j :: |orig| <= j < |before| ==> cells[j] == before[j]
    requires forall k :: 0 <= k < |prev| ==> CloneOf(orig, rank, before, prev[k], ops[k])
    requires CloneOf(orig, rank, cells, d, ops[|prev|])
    ensures forall k :: 0 <= k <= |prev| ==> CloneOf(orig, rank, cells, (prev + [d])[k], ops[k])
  {
    forall k | 0 <= k <= |prev| ensures CloneOf(orig, rank, cells, (prev + [d])[k], ops[k]) {
      if k < |prev| {
        assert (prev + [d])[k] == prev[k];
        CloneOfGrows(orig, rank, before, cells, prev[k], ops[k]);
      }
    }
  }
}
