/**
 * The cell objects themselves: one store holding every cell, which reads,
 * writes, clones and retargets them in place, and the static counter that
 * numbers typed cells as they are constructed.
 */
module Store {
  import opened Wrappers
  import opened CsInt
  import opened Values
  import opened Cells
  import opened Retarget
  import opened Cloning
  import MathCalc
  import MathCheck
  import MathIf

  /** Reading operands one by one changes none of their results. */
  lemma SoundOperands(a: seq<Cell>, b: seq<Cell>, rank: seq<nat>, c: CellId)
    requires Ranked(a, rank) && BufferSound(a, b, rank) && c < |a| && a[c].CalcNode? && b[c] == a[c]
    ensures Ranked(b, rank) && OperandResults(b, rank, c) == OperandResults(a, rank, c)
  {
    GrownRanked(a, b, rank);
    forall j | 0 <= j < |a[c].operands|
      ensures OperandResults(b, rank, c)[j] == OperandResults(a, rank, c)[j]
    {
      OperandResult(a, rank, c, j);
      OperandResult(b, rank, c, j);
      SoundPreservesEval(a, b, rank, a[c].operands[j]);
    }
  }

  /**
   * `v1 == v2` on two typed cells, `None` standing for null: null equals
   * only null; otherwise the values both cells read are compared, the left
   * one read first.
   */
  ghost function CellEquals(cells: seq<Cell>, rank: seq<nat>, a: Option<CellId>, b: Option<CellId>): (r: Result<bool>)
    requires Ranked(cells, rank) && (a.Some? ==> a.value < |cells|) && (b.Some? ==> b.value < |cells|)
    ensures a.None? || b.None? ==> r == Ok(a.None? && b.None?)
    ensures a.Some? && b.Some? && Eval(cells, rank, a.value).Ok? && Eval(cells, rank, b.value).Ok? ==>
      r == Ok(ValueEquals(Eval(cells, rank, a.value).value, Eval(cells, rank, b.value).value))
    ensures a.Some? && b.Some? && Eval(cells, rank, a.value) == Eval(cells, rank, b.value) && r.Ok? ==> r.value
  {
    if a.None? || b.None? then Ok(a.None? && b.None?)
    else match Eval(cells, rank, a.value)
      case Fail(f) => Fail(f)
      case Ok(x) =>
        match Eval(cells, rank, b.value)
        case Fail(f) => Fail(f)
        case Ok(y) => Ok(if x == VNull then y == VNull else ValueEquals(x, y))
  }

  /**
   * `v1 != v2` as written: the null cases negated, then the negated
   * comparison of the left value with the right one, or, when the left
   * value is null, whether the right one is not.
   */
  ghost function CellNotEquals(cells: seq<Cell>, rank: seq<nat>, a: Option<CellId>, b: Option<CellId>): (r: Result<bool>)
    requires Ranked(cells, rank) && (a.Some? ==> a.value < |cells|) && (b.Some? ==> b.value < |cells|)
  {
    if a.None? || b.None? then Ok(!(a.None? && b.None?))
    else match Eval(cells, rank, a.value)
      case Fail(f) => Fail(f)
      case Ok(x) =>
        match Eval(cells, rank, b.value)
        case Fail(f) => Fail(f)
        case Ok(y) => if x == VNull then Ok(y != VNull) else Ok(!ValueEquals(x, y))
  }

  /** Unlike the status operators, the two cell operators are exact negations. */
  lemma NotEqualsNegates(cells: seq<Cell>, rank: seq<nat>, a: Option<CellId>, b: Option<CellId>)
    requires Ranked(cells, rank) && (a.Some? ==> a.value < |cells|) && (b.Some? ==> b.value < |cells|)
    ensures CellEquals(cells, rank, a, b).Ok? <==> CellNotEquals(cells, rank, a, b).Ok?
    ensures CellEquals(cells, rank, a, b).Ok? ==>
      CellNotEquals(cells, rank, a, b).value == !CellEquals(cells, rank, a, b).value
  {
  }

  /** Cell equality is symmetric whenever both reads succeed. */
  lemma CellEqualsSymmetric(cells: seq<Cell>, rank: seq<nat>, a: CellId, b: CellId)
    requires Ranked(cells, rank) && a < |cells| && b < |cells|
    requires Eval(cells, rank, a).Ok? && Eval(cells, rank, b).Ok?
    ensures CellEquals(cells, rank, Some(a), Some(b)) == CellEquals(cells, rank, Some(b), Some(a))
  {
  }

  /** Appending a typed cell with the id just drawn keeps ids below the counter and unique. */
  lemma AppendIds(cells: seq<Cell>, x: Cell, wasWrapped: bool, wrapped: bool, id: int, next: int)
    requires x.Typed() && x.id == id && next == Wrap(id + 1) && IsInt(id)
    requires wrapped == (wasWrapped || id == MaxInt)
    requires !wasWrapped ==> 0 <= id && IdsBelow(cells, id) && IdsDistinct(cells)
    ensures !wrapped ==> 0 <= next && IdsBelow(cells + [x], next) && IdsDistinct(cells + [x])
  {
    if !wrapped {
      var b := cells + [x];
      assert next == id + 1;
      forall i | 0 <= i < |b| && b[i].Typed() ensures 0 <= b[i].id < next {
        if i < |cells| { assert b[i] == cells[i]; }
      }
      forall i, j | 0 <= i < j < |b| && b[i].Typed() && b[j].Typed() ensures b[i].id != b[j].id {
        assert b[i] == cells[i];
        if j < |cells| { assert b[j] == cells[j]; }
      }
    }
  }

  /** Every typed cell appended after `a` drew its id from `lo` up to `hi`. */
  ghost predicate FreshIds(a: seq<Cell>, b: seq<Cell>, lo: int, hi: int)
  {
    forall i :: |a| <= i < |b| && b[i].Typed() ==> lo <= b[i].id < hi
  }

  /** Appending an expression node, which has no id, keeps the appended ids in their range. */
  lemma FreshIdsNode(a: seq<Cell>, b: seq<Cell>, x: Cell, lo: int, hi: int)
    requires FreshIds(a, b, lo, hi) && |a| <= |b| && x.IsNode()
    ensures FreshIds(a, b + [x], lo, hi)
  {
    assert forall i :: |a| <= i < |b| ==> (b + [x])[i] == b[i];
  }

  /** Appending a typed cell whose id is in range keeps the appended ids in their range. */
  lemma FreshIdsTyped(a: seq<Cell>, b: seq<Cell>, x: Cell, lo: int, hi: int)
    requires FreshIds(a, b, lo, hi) && |a| <= |b| && x.Typed() && lo <= x.id < hi
    ensures FreshIds(a, b + [x], lo, hi)
  {
    assert forall i :: |a| <= i < |b| ==> (b + [x])[i] == b[i];
  }

  /** Appending a typed cell whose id is in range and new keeps ids below the counter and unique. */
  lemma AppendTyped(cells: seq<Cell>, x: Cell, next: int)
    requires x.Typed() && 0 <= x.id < next && IdsBelow(cells, next) && IdsDistinct(cells)
    requires forall i :: 0 <= i < |cells| && cells[i].Typed() ==> cells[i].id != x.id
    ensures IdsBelow(cells + [x], next) && IdsDistinct(cells + [x])
  {
    var b := cells + [x];
    forall i, j | 0 <= i < j < |b| && b[i].Typed() && b[j].Typed() ensures b[i].id != b[j].id {
      assert b[i] == cells[i];
      if j < |cells| { assert b[j] == cells[j]; }
    }
  }

  /** Appending an expression node leaves the typed cells and their ids as they were. */
  lemma AppendNode(cells: seq<Cell>, x: Cell, next: int)
    requires x.IsNode() && WellTyped(cells)
    ensures WellTyped(cells + [x])
    ensures IdsBelow(cells, next) ==> IdsBelow(cells + [x], next)
    ensures IdsDistinct(cells) ==> IdsDistinct(cells + [x])
  {
    var b := cells + [x];
    assert forall i :: 0 <= i < |cells| ==> b[i] == cells[i];
  }

  class CellStore {
    /** Every cell object, by identity. */
    var cells: seq<Cell>
    /** `ValueWrapper<T>.cid`: the id the next typed cell receives. */
    var nextId: int
    /** Whether the counter has wrapped around past int.MaxValue. */
    ghost var wrapped: bool

    /**
     * `Value`'s getter through the interface: the value of `c`, computed
     * as Eval describes. Expression nodes on the way that are precompiled
     * and have not computed yet keep what they compute.
     */
    method Read(c: CellId, ghost rank: seq<nat>) returns (r: Result<Val>)
      requires Ranked(cells, rank) && c < |cells|
      modifies this
      decreases rank[c], 6
      ensures r == Eval(old(cells), rank, c)
      ensures Grown(old(cells), cells) && Ranked(cells, rank)
      ensures forall i :: 0 <= i < |cells| && rank[i] > rank[c] ==> cells[i] == old(cells)[i]
      ensures r.Ok? ==> BufferSound(old(cells), cells, rank)
      ensures old(cells)[c].IsNode() && old(cells)[c].precompile ==> cells[c].buffer.Some?
      ensures old(cells)[c].IsNode() && old(cells)[c].precompile && r.Ok? ==> cells[c].buffer == Some(r.value)
      ensures nextId == old(nextId) && wrapped == old(wrapped)
    {
      match cells[c]
      case Wrapper(_, _, _, _, value, remote) =>
        if remote.Some? {
          RefRank(cells, rank, c, remote.value);
          r := Read(remote.value, rank);
        } else {
          r := Ok(value);
        }
      case MathValue(_, _, _, kind, _, _, source, _) =>
        RefRank(cells, rank, c, source);
        var x := Read(source, rank);
        r := if x.Fail? then Fail(x.fault) else Cast(kind, x.value);
      case _ =>
        r := ReadNode(c, rank);
    }

    /** `bufcalc`: an expression node's read, through its buffer when precompiled. */
    method ReadNode(c: CellId, ghost rank: seq<nat>) returns (r: Result<Val>)
      requires Ranked(cells, rank) && c < |cells| && cells[c].IsNode()
      modifies this
      decreases rank[c], 5
      ensures r == Eval(old(cells), rank, c)
      ensures Grown(old(cells), cells) && Ranked(cells, rank)
      ensures forall i :: 0 <= i < |cells| && rank[i] > rank[c] ==> cells[i] == old(cells)[i]
      ensures r.Ok? ==> BufferSound(old(cells), cells, rank)
      ensures old(cells)[c].precompile ==> cells[c].buffer.Some?
      ensures old(cells)[c].precompile && r.Ok? ==> cells[c].buffer == Some(r.value)
      ensures old(cells)[c].precompile && old(cells)[c].buffer.None? && r.Fail? ==> cells[c].buffer == Some(VNull)
      ensures nextId == old(nextId) && wrapped == old(wrapped)
    {
      var node := cells[c];
      if !node.precompile {
        r := Compute(c, rank);
        return;
      }
      if node.buffer.Some? {
        r := Ok(node.buffer.value);
        return;
      }
      ghost var before := cells;
      // hasbuffer is set before computing: a failed computation leaves a null buffer
      cells := cells[c := node.(buffer := Some(VNull))];
      ghost var poisoned := cells;
      assert Grown(before, poisoned);
      GrownRanked(before, poisoned, rank);
      ComputedAgree(before, poisoned, rank, rank[c], c);
      r := Compute(c, rank);
      GrownTransitive(before, poisoned, cells);
      if r.Ok? {
        ghost var computed := cells;
        cells := cells[c := node.(buffer := Some(r.value))];
        assert Filled(before[c], cells[c]);
        forall i | 0 <= i < |before| ensures cells[i] == before[i] || Filled(before[i], cells[i]) {
          if i != c { assert cells[i] == computed[i]; }
        }
        GrownRanked(before, cells, rank);
        forall i | 0 <= i < |before| && cells[i] != before[i]
          ensures Eval(before, rank, i) == Ok(cells[i].buffer.value)
        {
          if i != c {
            assert computed[i] != poisoned[i] && rank[i] < rank[c];
            EvalAgree(poisoned, before, rank, rank[c], i);
          }
        }
      }
    }

    /** `calc`: what an expression node computes, reading its operands. */
    method Compute(c: CellId, ghost rank: seq<nat>) returns (r: Result<Val>)
      requires Ranked(cells, rank) && c < |cells| && cells[c].IsNode()
      modifies this
      decreases rank[c], 4
      ensures r == Computed(old(cells), rank, c)
      ensures Grown(old(cells), cells) && Ranked(cells, rank)
      ensures forall i :: 0 <= i < |cells| && rank[i] >= rank[c] ==> cells[i] == old(cells)[i]
      ensures r.Ok? ==> BufferSound(old(cells), cells, rank)
      ensures nextId == old(nextId) && wrapped == old(wrapped)
    {
      match cells[c]
      case CalcNode(_, _, _, _, _, _, _) =>
        r := ComputeCalc(c, rank);
      case IfNode(_, _, cond, onTrue, onFalse, _, _) =>
        RefRank(cells, rank, c, cond);
        RefRank(cells, rank, c, onTrue);
        RefRank(cells, rank, c, onFalse);
        ghost var before := cells;
        var x := Read(cond, rank);
        if x.Fail? {
          r := Fail(x.fault);
          return;
        }
        ghost var mid := cells;
        if MathIf.Truthy(x.value) {
          SoundPreservesEval(before, mid, rank, onTrue);
          r := Read(onTrue, rank);
        } else {
          SoundPreservesEval(before, mid, rank, onFalse);
          r := Read(onFalse, rank);
        }
        GrownTransitive(before, mid, cells);
        if r.Ok? {
          BufferSoundTransitive(before, mid, cells, rank);
        }
      case CheckNode(_, _, mode, left, right, _, _) =>
        RefRank(cells, rank, c, left);
        RefRank(cells, rank, c, right);
        ghost var before := cells;
        var a := Read(left, rank);
        if a.Fail? {
          r := Fail(a.fault);
          return;
        }
        ghost var mid := cells;
        SoundPreservesEval(before, mid, rank, right);
        var b := Read(right, rank);
        GrownTransitive(before, mid, cells);
        if b.Fail? {
          r := Fail(b.fault);
          return;
        }
        BufferSoundTransitive(before, mid, cells, rank);
        r := Ok(MathCheck.Compare(mode, a.value, b.value));
    }
  
    /** `calc` of a calc node: by method, a loop over the operands or a function of the first. */
    method ComputeCalc(c: CellId, ghost rank: seq<nat>) returns (r: Result<Val>)
      requires Ranked(cells, rank) && c < |cells| && cells[c].CalcNode?
      modifies this
      decreases rank[c], 3
      ensures r == MathCalc.CalcValue(old(cells)[c].calcType, old(cells)[c].op, OperandResults(old(cells), rank, c))
      ensures Grown(old(cells), cells) && Ranked(cells, rank)
      ensures forall i :: 0 <= i < |cells| && rank[i] >= rank[c] ==> cells[i] == old(cells)[i]
      ensures r.Ok? ==> BufferSound(old(cells), cells, rank)
      ensures nextId == old(nextId) && wrapped == old(wrapped)
    {
      var t, m, ops := cells[c].calcType, cells[c].op, cells[c].operands;
      ghost var rs := OperandResults(cells, rank, c);
      MathCalc.CalcShape(t, m, rs);
      if t == MathCalc.Double {
        // the double branch is outside the model
        r := if !MathCalc.ValidMethod(t, m) || (m == MathCalc.Neg && |ops| == 0) then Ok(VNull) else Fail(OutsideModel);
      } else if MathCalc.FromSeed(t, m) {
        r := FoldOperands(c, rank, 0, MathCalc.Seed(t, m));
        assert rs[0..] == rs;
      } else if MathCalc.FromFirstOperand(t, m) {
        if |ops| == 0 {
          r := if t == MathCalc.Int then Ok(VInt(0)) else Fail(ArgumentOutOfRange);
        } else {
          r := FoldFromFirstOperand(c, rank);
        }
      } else if MathCalc.OnFirstOperand(t, m) {
        if |ops| == 0 {
          r := MathCalc.CalcValue(t, m, []);
        } else {
          r := ComputeOnFirstOperand(c, rank);
        }
      } else {
        r := Ok(VNull);
      }
    }

    /** The loops that start from the first operand: it is read and cast, and the rest folded from it. */
    method FoldFromFirstOperand(c: CellId, ghost rank: seq<nat>) returns (r: Result<Val>)
      requires Ranked(cells, rank) && c < |cells| && cells[c].CalcNode? && |cells[c].operands| > 0
      modifies this
      decreases rank[c], 2
      ensures r == MathCalc.FoldFromFirst(old(cells)[c].calcType, old(cells)[c].op, OperandResults(old(cells), rank, c))
      ensures Grown(old(cells), cells) && Ranked(cells, rank)
      ensures forall i :: 0 <= i < |cells| && rank[i] >= rank[c] ==> cells[i] == old(cells)[i]
      ensures r.Ok? ==> BufferSound(old(cells), cells, rank)
      ensures nextId == old(nextId) && wrapped == old(wrapped)
    {
      var t, ops := cells[c].calcType, cells[c].operands;
      OperandResult(cells, rank, c, 0);
      var x := Read(ops[0], rank);
      if x.Fail? {
        r := Fail(x.fault);
      } else {
        var first := Cast(MathCalc.ResultKind(t), x.value);
        if first.Fail? {
          r := Fail(first.fault);
        } else {
          ghost var mid := cells;
          SoundOperands(old(cells), mid, rank, c);
          r := FoldOperands(c, rank, 1, first.value);
          GrownTransitive(old(cells), mid, cells);
          if r.Ok? {
            BufferSoundTransitive(old(cells), mid, cells, rank);
          }
        }
      }
    }

    /** The methods of the first operand alone: only that operand is read. */
    method ComputeOnFirstOperand(c: CellId, ghost rank: seq<nat>) returns (r: Result<Val>)
      requires Ranked(cells, rank) && c < |cells| && cells[c].CalcNode? && |cells[c].operands| > 0
      requires MathCalc.OnFirstOperand(cells[c].calcType, cells[c].op)
      modifies this
      decreases rank[c], 2
      ensures r == MathCalc.CalcValue(old(cells)[c].calcType, old(cells)[c].op, OperandResults(old(cells), rank, c)[..1])
      ensures Grown(old(cells), cells) && Ranked(cells, rank)
      ensures forall i :: 0 <= i < |cells| && rank[i] >= rank[c] ==> cells[i] == old(cells)[i]
      ensures r.Ok? ==> BufferSound(old(cells), cells, rank)
      ensures nextId == old(nextId) && wrapped == old(wrapped)
    {
      var t, m, ops := cells[c].calcType, cells[c].op, cells[c].operands;
      ghost var rs := OperandResults(cells, rank, c);
      OperandResult(cells, rank, c, 0);
      var x := Read(ops[0], rank);
      assert rs[..1] == [x];
      r := MathCalc.CalcValue(t, m, [x]);
      if x.Fail? {
        MathCalc.FirstOperandFails(t, m, x.fault);
      }
    }

    /**
     * The accumulator loop of a calc node over its operands from `start`:
     * each operand is read and combined in turn, unless the accumulator
     * already decides the step; the first failure ends the loop.
     */
    method FoldOperands(c: CellId, ghost rank: seq<nat>, start: nat, init: Val) returns (r: Result<Val>)
      requires Ranked(cells, rank) && c < |cells| && cells[c].CalcNode? && start <= |cells[c].operands|
      modifies this
      decreases rank[c], 1
      ensures r == MathCalc.Fold(old(cells)[c].calcType, old(cells)[c].op, init,
                                 OperandResults(old(cells), rank, c)[start..])
      ensures Grown(old(cells), cells) && Ranked(cells, rank)
      ensures forall i :: 0 <= i < |cells| && rank[i] >= rank[c] ==> cells[i] == old(cells)[i]
      ensures r.Ok? ==> BufferSound(old(cells), cells, rank)
      ensures nextId == old(nextId) && wrapped == old(wrapped)
    {
      var t, m, ops := cells[c].calcType, cells[c].op, cells[c].operands;
      ghost var all := OperandResults(cells, rank, c);
      ghost var rs := all[start..];
      var acc := init;
      var i := start;
      assert rs[..0] == [];
      assert Grown(old(cells), cells);
      while i < |ops|
        invariant start <= i <= |ops|
        invariant MathCalc.Fold(t, m, init, rs[..i - start]) == Ok(acc)
        invariant Grown(old(cells), cells) && Ranked(cells, rank)
        invariant BufferSound(old(cells), cells, rank)
        invariant forall k :: 0 <= k < |cells| && rank[k] >= rank[c] ==> cells[k] == old(cells)[k]
        invariant cells[c] == old(cells)[c]
        invariant nextId == old(nextId) && wrapped == old(wrapped)
      {
        ghost var before := cells;
        SoundOperands(old(cells), before, rank, c);
        var s := OperandStep(c, rank, i, acc);
        assert rs[i - start] == all[i];
        MathCalc.FoldTurn(t, m, init, rs, i - start, acc, s);
        GrownTransitive(old(cells), before, cells);
        if s.Fail? {
          r := s;
          return;
        }
        BufferSoundTransitive(old(cells), before, cells, rank);
        acc := s.value;
        i := i + 1;
      }
      assert rs[..i - start] == rs;
      r := Ok(acc);
    }

    /** One turn of the loop: `val` combined with operand `i`, read only when needed. */
    method OperandStep(c: CellId, ghost rank: seq<nat>, i: nat, acc: Val) returns (s: Result<Val>)
      requires Ranked(cells, rank) && c < |cells| && cells[c].CalcNode? && i < |cells[c].operands|
      modifies this
      decreases rank[c], 0
      ensures s == MathCalc.Next(old(cells)[c].calcType, old(cells)[c].op, Ok(acc),
                                 OperandResults(old(cells), rank, c)[i])
      ensures Grown(old(cells), cells) && Ranked(cells, rank)
      ensures forall k :: 0 <= k < |cells| && rank[k] >= rank[c] ==> cells[k] == old(cells)[k]
      ensures s.Ok? ==> BufferSound(old(cells), cells, rank)
      ensures nextId == old(nextId) && wrapped == old(wrapped)
    {
      var t, m := cells[c].calcType, cells[c].op;
      match MathCalc.Decided(m, acc)
      case Some(v) =>
        s := Ok(v);
        assert Grown(old(cells), cells);
      case None =>
        OperandResult(cells, rank, c, i);
        RefRank(cells, rank, c, cells[c].operands[i]);
        var x := Read(cells[c].operands[i], rank);
        s := if x.Fail? then Fail(x.fault) else MathCalc.Step(t, m, acc, x.value);
    }

    /** The counter never leaves the int range, and while it has not wrapped every id is below it and unique. */
    ghost predicate Valid()
      reads this
    {
      && IsInt(nextId)
      && WellTyped(cells)
      && (!wrapped ==> 0 <= nextId && IdsBelow(cells, nextId) && IdsDistinct(cells))
    }

    /** An empty store; `cid` starts at 0. */
    constructor ()
      ensures cells == [] && nextId == 0 && !wrapped && Valid()
    {
      cells := [];
      nextId := 0;
      wrapped := false;
    }

    /** `id = cid++`: the id a typed cell draws when it is constructed; the counter wraps past int.MaxValue. */
    method DrawId() returns (id: int)
      requires Valid()
      modifies this
      ensures id == old(nextId) && nextId == Wrap(old(nextId) + 1)
      ensures wrapped == (old(wrapped) || old(nextId) == MaxInt)
      ensures cells == old(cells)
      ensures !wrapped ==> id < nextId && forall i :: 0 <= i < |cells| && cells[i].Typed() ==> cells[i].id < id
      ensures IsInt(nextId) && WellTyped(cells) && (!wrapped ==> 0 <= nextId && IdsBelow(cells, nextId) && IdsDistinct(cells))
    {
      id := nextId;
      wrapped := wrapped || id == MaxInt;
      nextId := Wrap(nextId + 1);
    }

    /** `new ValueWrapper<T> { Name = name }`: exists, holds `default(T)`, has no remote source. */
    method NewWrapper(name: string, kind: Kind, ghost rank: seq<nat>) returns (c: CellId)
      requires Valid() && Ranked(cells, rank)
      modifies this
      ensures c == |old(cells)| && cells == old(cells) + [Wrapper(old(nextId), name, true, kind, Default(kind), None)]
      ensures nextId == Wrap(old(nextId) + 1) && wrapped == (old(wrapped) || old(nextId) == MaxInt)
      ensures Valid() && Ranked(cells, rank + [0])
      ensures !wrapped ==> forall i :: 0 <= i < c && cells[i].Typed() ==> cells[i].id < cells[c].id
      ensures Eval(cells, rank + [0], c) == Ok(Default(kind))
    {
      var id := DrawId();
      c := |cells|;
      cells := cells + [Wrapper(id, name, true, kind, Default(kind), None)];
      AppendRanked(old(cells), rank, cells[c]);
      AppendIds(old(cells), cells[c], old(wrapped), wrapped, old(nextId), nextId);
    }

    /**
     * `new MathValue<T>` as the loader builds one: exists, reads `source`
     * through a cast to `kind`, and keeps its own value and remote source
     * unused. Its name is never set; the model writes the empty string.
     */
    method NewMathValue(kind: Kind, source: CellId, valueType: string, ghost rank: seq<nat>) returns (c: CellId)
      requires Valid() && Ranked(cells, rank) && source < |cells|
      modifies this
      ensures c == |old(cells)|
      ensures cells == old(cells) + [MathValue(old(nextId), Unnamed, true, kind, Default(kind), None, source, valueType)]
      ensures nextId == Wrap(old(nextId) + 1) && wrapped == (old(wrapped) || old(nextId) == MaxInt)
      ensures Valid() && Ranked(cells, rank + [rank[source] + 1])
      ensures !wrapped ==> forall i :: 0 <= i < c && cells[i].Typed() ==> cells[i].id < cells[c].id
    {
      var id := DrawId();
      c := |cells|;
      cells := cells + [MathValue(id, Unnamed, true, kind, Default(kind), None, source, valueType)];
      AppendRanked(old(cells), rank, cells[c]);
      AppendIds(old(cells), cells[c], old(wrapped), wrapped, old(nextId), nextId);
      assert Top(rank, [source]) == rank[source] + 1;
    }

    /**
     * The loader's `Calc` element: a method the type cannot perform is
     * refused with InvalidOperationException before the node exists.
     * A new node does not exist, is named "Calc" and has an empty buffer.
     */
    method NewCalc(precompile: bool, op: MathCalc.CalcMethod, t: MathCalc.CalcType, operands: seq<CellId>,
                   ghost rank: seq<nat>) returns (r: Result<CellId>)
      requires Valid() && Ranked(cells, rank) && forall j :: j in operands ==> j < |cells|
      modifies this
      ensures r.Fail? <==> !MathCalc.ValidMethod(t, op)
      ensures r.Fail? ==> r.fault == InvalidOperation && cells == old(cells)
      ensures r.Ok? ==> (r.value == |old(cells)| &&
        cells == old(cells) + [CalcNode("Calc", false, op, t, operands, precompile, None)])
      ensures Valid() && Ranked(cells, rank + if r.Ok? then [Top(rank, operands)] else [])
      ensures nextId == old(nextId) && wrapped == old(wrapped)
    {
      if !MathCalc.ValidMethod(t, op) {
        r := Fail(InvalidOperation);
        assert rank + [] == rank;
        return;
      }
      r := Ok(|cells|);
      cells := cells + [CalcNode("Calc", false, op, t, operands, precompile, None)];
      AppendRanked(old(cells), rank, cells[r.value]);
    }

    /** The loader's `If` element: a node named "If" that does not exist and has an empty buffer. */
    method NewIf(precompile: bool, cond: CellId, onTrue: CellId, onFalse: CellId, ghost rank: seq<nat>)
      returns (c: CellId)
      requires Valid() && Ranked(cells, rank) && cond < |cells| && onTrue < |cells| && onFalse < |cells|
      modifies this
      ensures c == |old(cells)| && cells == old(cells) + [IfNode("If", false, cond, onTrue, onFalse, precompile, None)]
      ensures Valid() && Ranked(cells, rank + [Top(rank, [cond, onTrue, onFalse])])
      ensures nextId == old(nextId) && wrapped == old(wrapped)
    {
      c := |cells|;
      cells := cells + [IfNode("If", false, cond, onTrue, onFalse, precompile, None)];
      AppendRanked(old(cells), rank, cells[c]);
    }

    /** The loader's `Check` element: a node named "Check" that does not exist and has an empty buffer. */
    method NewCheck(precompile: bool, mode: MathCheck.CheckMode, left: CellId, right: CellId, ghost rank: seq<nat>)
      returns (c: CellId)
      requires Valid() && Ranked(cells, rank) && left < |cells| && right < |cells|
      modifies this
      ensures c == |old(cells)| && cells == old(cells) + [CheckNode("Check", false, mode, left, right, precompile, None)]
      ensures Valid() && Ranked(cells, rank + [Top(rank, [left, right])])
      ensures nextId == old(nextId) && wrapped == old(wrapped)
    {
      c := |cells|;
      cells := cells + [CheckNode("Check", false, mode, left, right, precompile, None)];
      AppendRanked(old(cells), rank, cells[c]);
    }

    /** `Exists`'s setter: only the flag changes. */
    method SetPresent(c: CellId, b: bool)
      requires Valid() && c < |cells|
      modifies this
      ensures cells == old(cells)[c := old(cells)[c].(present := b)]
      ensures Valid() && nextId == old(nextId) && wrapped == old(wrapped)
      ensures forall rank :: Ranked(old(cells), rank) ==> Ranked(cells, rank)
    {
      cells := cells[c := cells[c].(present := b)];
      forall rank | Ranked(old(cells), rank) ensures Ranked(cells, rank) {
        SameRefsRanked(old(cells), cells, rank);
      }
    }

    /**
     * `RemoteSource`'s setter through the interface: the new source is
     * cast to `ValueWrapper<T>`, which throws InvalidCastException unless
     * it is a typed cell of the same type; null is always accepted. An
     * expression node ignores the assignment. No cycle check is made:
     * `Cells.RemoteRanked` shows the new store ranked when no read from the
     * source reaches the cell, and `Cells.RemoteCycleUnranked` that no
     * ranking exists when one does.
     */
    method SetRemote(c: CellId, src: Option<CellId>) returns (r: Result<()>)
      requires Valid() && c < |cells| && (src.Some? ==> src.value < |cells|)
      modifies this
      ensures r.Fail? <==> (old(cells)[c].Typed() && src.Some? &&
        !(old(cells)[src.value].Typed() && old(cells)[src.value].kind == old(cells)[c].kind))
      ensures r.Fail? ==> r.fault == InvalidCast
      ensures cells == if r.Ok? && old(cells)[c].Typed() then old(cells)[c := WithRemote(old(cells)[c], src)] else old(cells)
      ensures Valid() && nextId == old(nextId) && wrapped == old(wrapped)
    {
      if !cells[c].Typed() {
        return Ok(());
      }
      if src.Some? && !(cells[src.value].Typed() && cells[src.value].kind == cells[c].kind) {
        return Fail(InvalidCast);
      }
      cells := cells[c := WithRemote(cells[c], src)];
      r := Ok(());
    }

    /**
     * `Value`'s setter through the interface: `(T)value` is cast first;
     * then a typed cell stores the value at the end of its remote chain,
     * leaving every cell on the way unchanged. A math value on the chain,
     * and an expression node, ignore the write.
     */
    method Write(c: CellId, v: Val, ghost rank: seq<nat>) returns (r: Result<()>)
      requires Valid() && Ranked(cells, rank) && c < |cells|
      modifies this
      ensures r.Fail? <==> old(cells)[c].Typed() && !Fits(old(cells)[c].kind, v)
      ensures r.Fail? ==> Cast(old(cells)[c].kind, v) == Fail(r.fault)
      ensures var w := WriteTarget(old(cells), rank, c);
        cells == if r.Ok? && w.Some? then old(cells)[w.value := WithValue(old(cells)[w.value], v)] else old(cells)
      ensures Valid() && Ranked(cells, rank) && nextId == old(nextId) && wrapped == old(wrapped)
      ensures r.Ok? && WriteTarget(old(cells), rank, c).Some? ==> Eval(cells, rank, c) == Ok(v)
    {
      if cells[c].Typed() {
        var x := Cast(cells[c].kind, v);
        if x.Fail? {
          return Fail(x.fault);
        }
      }
      var w: CellId := c;
      while cells[w].Wrapper? && cells[w].remote.Some?
        invariant cells == old(cells) && nextId == old(nextId) && wrapped == old(wrapped) && w < |cells|
        invariant WriteTarget(cells, rank, w) == WriteTarget(cells, rank, c)
        decreases rank[w]
      {
        RefRank(cells, rank, w, cells[w].remote.value);
        w := cells[w].remote.value;
      }
      r := Ok(());
      if cells[w].Wrapper? {
        assert WriteTarget(cells, rank, c) == Some(w);
        WriteEffect(cells, rank, c, v, nextId);
        cells := cells[w := WithValue(cells[w], v)];
      }
    }

    /** `v1 == v2` on two typed cells: each operand is read once, the left one first. */
    method Equal(a: Option<CellId>, b: Option<CellId>, ghost rank: seq<nat>) returns (r: Result<bool>)
      requires Ranked(cells, rank)
      requires a.Some? ==> a.value < |cells| && cells[a.value].Typed()
      requires b.Some? ==> b.value < |cells| && cells[b.value].Typed()
      modifies this
      ensures r == CellEquals(old(cells), rank, a, b)
      ensures Grown(old(cells), cells) && Ranked(cells, rank)
      ensures r.Ok? ==> BufferSound(old(cells), cells, rank)
      ensures nextId == old(nextId) && wrapped == old(wrapped)
    {
      if a.None? || b.None? {
        r := Ok(a.None? && b.None?);
        assert Grown(old(cells), cells);
        return;
      }
      var x := Read(a.value, rank);
      if x.Fail? {
        return Fail(x.fault);
      }
      ghost var mid := cells;
      SoundPreservesEval(old(cells), mid, rank, b.value);
      var y := Read(b.value, rank);
      GrownTransitive(old(cells), mid, cells);
      if y.Fail? {
        return Fail(y.fault);
      }
      BufferSoundTransitive(old(cells), mid, cells, rank);
      r := Ok(if x.value == VNull then y.value == VNull else ValueEquals(x.value, y.value));
    }

    /** `v1 != v2` on two typed cells: each operand is read once, the left one first. */
    method NotEqual(a: Option<CellId>, b: Option<CellId>, ghost rank: seq<nat>) returns (r: Result<bool>)
      requires Ranked(cells, rank)
      requires a.Some? ==> a.value < |cells| && cells[a.value].Typed()
      requires b.Some? ==> b.value < |cells| && cells[b.value].Typed()
      modifies this
      ensures r == CellNotEquals(old(cells), rank, a, b)
      ensures Grown(old(cells), cells) && Ranked(cells, rank)
      ensures r.Ok? ==> BufferSound(old(cells), cells, rank)
      ensures nextId == old(nextId) && wrapped == old(wrapped)
    {
      if a.None? || b.None? {
        r := Ok(!(a.None? && b.None?));
        assert Grown(old(cells), cells);
        return;
      }
      var x := Read(a.value, rank);
      if x.Fail? {
        return Fail(x.fault);
      }
      ghost var mid := cells;
      SoundPreservesEval(old(cells), mid, rank, b.value);
      var y := Read(b.value, rank);
      GrownTransitive(old(cells), mid, cells);
      if y.Fail? {
        return Fail(y.fault);
      }
      BufferSoundTransitive(old(cells), mid, cells, rank);
      r := Ok(if x.value == VNull then y.value != VNull else !ValueEquals(x.value, y.value));
    }

    /**
     * `MoveTargets`: each reference slot of `c` in turn is replaced by its
     * image when the map has one, and the walk goes on into the cell the
     * slot now holds. A typed cell's remote source only takes a typed cell
     * of its own type (InvalidCastException otherwise). The walk has no
     * bound in the source; here it fails with StackOverflow when `fuel`
     * nested calls do not suffice.
     */
    method MoveTargets(c: CellId, conv: Conversion, fuel: nat) returns (r: Result<()>)
      requires Valid() && Closed(cells) && c < |cells| && ImagesIn(conv, |cells|)
      modifies this
      decreases fuel, 1
      ensures Valid() && Closed(cells) && StoreShaped(old(cells), cells)
      ensures nextId == old(nextId) && wrapped == old(wrapped)
      ensures ImagesNotKeys(conv) ==> StoreMoved(conv, old(cells), cells)
      ensures ImagesNotKeys(conv) && r.Ok? ==> cells[c] == Moved(conv, old(cells)[c])
      ensures r.Fail? ==> r.fault == InvalidCast || r.fault == StackOverflow
    {
      StoreMovedReflexive(conv, cells);
      if fuel == 0 {
        return Fail(StackOverflow);
      }
      var n := |cells[c].ReadRefs()|;
      var k := 0;
      while k < n
        invariant Valid() && Closed(cells) && StoreShaped(old(cells), cells)
        invariant 0 <= k <= n == |cells[c].ReadRefs()| == |old(cells)[c].ReadRefs()|
        invariant nextId == old(nextId) && wrapped == old(wrapped)
        invariant ImagesNotKeys(conv) ==> StoreMoved(conv, old(cells), cells)
        invariant ImagesNotKeys(conv) ==>
          forall j :: 0 <= j < k ==> cells[c].ReadRefs()[j] == Conv1(conv, old(cells)[c].ReadRefs()[j])
      {
        ghost var before := cells;
        r := MoveSlot(c, k, conv, fuel);
        StoreShapedTransitive(old(cells), before, cells);
        if ImagesNotKeys(conv) {
          StoreMovedTransitive(conv, old(cells), before, cells);
          forall j | 0 <= j < k
            ensures cells[c].ReadRefs()[j] == Conv1(conv, old(cells)[c].ReadRefs()[j])
          {
            Conv1Idempotent(conv, old(cells)[c].ReadRefs()[j]);
          }
        }
        if r.Fail? {
          return;
        }
        k := k + 1;
      }
      r := Ok(());
      if ImagesNotKeys(conv) {
        var m := Moved(conv, old(cells)[c]);
        assert cells[c].ReadRefs() == m.ReadRefs();
        WithRefsTwice(old(cells)[c], m.ReadRefs(), cells[c].ReadRefs());
      }
    }

    /** One slot of `MoveTargets`: replace it by its image when mapped, then walk into it. */
    method MoveSlot(c: CellId, k: nat, conv: Conversion, fuel: nat) returns (r: Result<()>)
      requires Valid() && Closed(cells) && c < |cells| && k < |cells[c].ReadRefs()| && ImagesIn(conv, |cells|)
      requires fuel > 0
      modifies this
      decreases fuel, 0
      ensures Valid() && Closed(cells) && StoreShaped(old(cells), cells)
      ensures nextId == old(nextId) && wrapped == old(wrapped)
      ensures ImagesNotKeys(conv) ==> StoreMoved(conv, old(cells), cells)
      ensures ImagesNotKeys(conv) && r.Ok? ==>
        cells[c].ReadRefs()[k] == Conv1(conv, old(cells)[c].ReadRefs()[k])
      ensures r.Fail? ==> r.fault == InvalidCast || r.fault == StackOverflow
    {
      StoreMovedReflexive(conv, cells);
      var s := cells[c].ReadRefs()[k];
      if s in conv {
        var img := conv[s];
        if cells[c].Wrapper? && !(cells[img].Typed() && cells[img].kind == cells[c].kind) {
          return Fail(InvalidCast);
        }
        SlotKeepsTyped(cells, c, k, img, nextId);
        cells := cells[c := WithSlot(cells[c], k, img)];
        forall i | 0 <= i < |cells| ensures SlotsMoved(conv, old(cells)[i], cells[i]) {
          if i != c { WithRefsSame(cells[i]); }
        }
      }
      ghost var before := cells;
      assert cells[c].ReadRefs()[k] in cells[c].ReadRefs();
      r := MoveTargets(cells[c].ReadRefs()[k], conv, fuel - 1);
      StoreShapedTransitive(old(cells), before, cells);
      if ImagesNotKeys(conv) {
        StoreMovedTransitive(conv, old(cells), before, cells);
        Conv1Idempotent(conv, old(cells)[c].ReadRefs()[k]);
      }
    }

    /**
     * `Clone`: a typed cell is copied with its name, flag, own value and
     * the same remote source; a math value draws its id before its source
     * is cloned and keeps neither value nor remote source; an expression
     * node clones its children (an `If` in the order condition, false
     * branch, true branch) and starts with an empty buffer.
     */
    method Clone(c: CellId, ghost rank: seq<nat>) returns (d: CellId, ghost rank': seq<nat>)
      requires Valid() && Ranked(cells, rank) && c < |cells|
      modifies this
      decreases rank[c], 2
      ensures Valid() && Ranked(cells, rank') && Extends(old(cells), rank, cells, rank')
      ensures CloneOf(old(cells), rank, cells, d, c)
      ensures old(wrapped) ==> wrapped
      ensures !wrapped ==> old(nextId) <= nextId && FreshIds(old(cells), cells, old(nextId), nextId)
    {
      match cells[c]
      case Wrapper(_, name, present, kind, value, remote) =>
        var id := DrawId();
        d := |cells|;
        var x := Wrapper(id, name, present, kind, value, remote);
        if remote.Some? { RefRank(cells, rank, c, remote.value); }
        cells := cells + [x];
        rank' := rank + [Top(rank, x.ReadRefs())];
        AppendRanked(old(cells), rank, x);
        if !wrapped { AppendTyped(old(cells), x, nextId); }
        assert cells[d] == x;
      case MathValue(_, _, _, _, _, _, _, _) =>
        d, rank' := CloneMathValue(c, rank);
      case CalcNode(_, _, _, _, _, _, _) =>
        d, rank' := CloneCalc(c, rank);
      case IfNode(_, _, _, _, _, _, _) =>
        d, rank' := CloneIf(c, rank);
      case CheckNode(_, _, _, _, _, _, _) =>
        d, rank' := CloneCheck(c, rank);
    }

    /** `MathValue<T>.Clone`: the new cell's id is drawn before its source is cloned. */
    method CloneMathValue(c: CellId, ghost rank: seq<nat>) returns (d: CellId, ghost rank': seq<nat>)
      requires Valid() && Ranked(cells, rank) && c < |cells| && cells[c].MathValue?
      modifies this
      decreases rank[c], 1
      ensures Valid() && Ranked(cells, rank') && Extends(old(cells), rank, cells, rank')
      ensures CloneOf(old(cells), rank, cells, d, c)
      ensures old(wrapped) ==> wrapped
      ensures !wrapped ==> old(nextId) <= nextId && FreshIds(old(cells), cells, old(nextId), nextId)
    {
      var name, present, kind, source, valueType :=
        cells[c].name, cells[c].present, cells[c].kind, cells[c].source, cells[c].valueType;
      var id := DrawId();
      RefRank(cells, rank, c, source);
      ghost var mid := cells;
      ghost var midNext := nextId;
      var s, r1 := Clone(source, rank);
      CloneOfBase(old(cells), rank, mid, rank, cells, s, source);
      var x := MathValue(id, name, present, kind, Default(kind), None, s, valueType);
      ghost var before := cells;
      if !wrapped {
        forall i | 0 <= i < |before| && before[i].Typed() ensures before[i].id != id {
          if i >= |old(cells)| { assert midNext <= before[i].id; }
        }
      }
      d, rank' := PushTyped(x, r1);
      ExtendsTransitive(old(cells), rank, before, r1, cells, rank');
      if !wrapped { FreshIdsTyped(old(cells), before, x, old(nextId), nextId); }
      CloneOfGrows(old(cells), rank, before, cells, s, source);
      assert cells[d] == x;
    }

    /** `Calc.Clone`: every operand cloned in order, the node copied with an empty buffer. */
    method CloneCalc(c: CellId, ghost rank: seq<nat>) returns (d: CellId, ghost rank': seq<nat>)
      requires Valid() && Ranked(cells, rank) && c < |cells| && cells[c].CalcNode?
      modifies this
      decreases rank[c], 1
      ensures Valid() && Ranked(cells, rank') && Extends(old(cells), rank, cells, rank')
      ensures CloneOf(old(cells), rank, cells, d, c)
      ensures old(wrapped) ==> wrapped
      ensures !wrapped ==> old(nextId) <= nextId && FreshIds(old(cells), cells, old(nextId), nextId)
    {
      var name, present, op, t, precompile :=
        cells[c].name, cells[c].present, cells[c].op, cells[c].calcType, cells[c].precompile;
      ghost var ops := cells[c].operands;
      var ops', r1 := CloneOperands(c, rank);
      var x := CalcNode(name, present, op, t, ops', precompile, None);
      ghost var before := cells;
      forall j | j in ops' ensures j < |cells| {
        var k :| 0 <= k < |ops'| && ops'[k] == j;
      }
      d, rank' := PushNode(x, r1);
      ExtendsTransitive(old(cells), rank, before, r1, cells, rank');
      if !wrapped { FreshIdsNode(old(cells), before, x, old(nextId), nextId); }
      OperandsRanked(old(cells), rank, c);
      forall k | 0 <= k < |ops| ensures CloneOf(old(cells), rank, cells, ops'[k], ops[k]) {
        CloneOfGrows(old(cells), rank, before, cells, ops'[k], ops[k]);
      }
      assert cells[d] == x;
    }

    /** `If.Clone`: condition, false branch and true branch cloned in that order. */
    method CloneIf(c: CellId, ghost rank: seq<nat>) returns (d: CellId, ghost rank': seq<nat>)
      requires Valid() && Ranked(cells, rank) && c < |cells| && cells[c].IfNode?
      modifies this
      decreases rank[c], 1
      ensures Valid() && Ranked(cells, rank') && Extends(old(cells), rank, cells, rank')
      ensures CloneOf(old(cells), rank, cells, d, c)
      ensures old(wrapped) ==> wrapped
      ensures !wrapped ==> old(nextId) <= nextId && FreshIds(old(cells), cells, old(nextId), nextId)
    {
      var name, present, precompile := cells[c].name, cells[c].present, cells[c].precompile;
      var cond, onTrue, onFalse := cells[c].cond, cells[c].onTrue, cells[c].onFalse;
      RefRank(cells, rank, c, cond);
      RefRank(cells, rank, c, onTrue);
      RefRank(cells, rank, c, onFalse);
      var cond', onFalse', onTrue', r1 := CloneTriple(c, cond, onFalse, onTrue, rank);
      var x := IfNode(name, present, cond', onTrue', onFalse', precompile, None);
      ghost var before := cells;
      d, rank' := PushNode(x, r1);
      ExtendsTransitive(old(cells), rank, before, r1, cells, rank');
      if !wrapped { FreshIdsNode(old(cells), before, x, old(nextId), nextId); }
      CloneOfGrows(old(cells), rank, before, cells, cond', cond);
      CloneOfGrows(old(cells), rank, before, cells, onTrue', onTrue);
      CloneOfGrows(old(cells), rank, before, cells, onFalse', onFalse);
      CloneOfIf(old(cells), rank, cells, d, c);
    }

    /** Appends the expression node `x`, whose children are cells of the store. */
    method PushNode(x: Cell, ghost rank: seq<nat>) returns (d: CellId, ghost rank': seq<nat>)
      requires Valid() && Ranked(cells, rank) && x.IsNode() && forall j :: j in x.ReadRefs() ==> j < |cells|
      modifies this
      ensures cells == old(cells) + [x] && d == |old(cells)| && nextId == old(nextId) && wrapped == old(wrapped)
      ensures Valid() && Ranked(cells, rank') && Extends(old(cells), rank, cells, rank')
    {
      d := |cells|;
      cells := cells + [x];
      rank' := rank + [Top(rank, x.ReadRefs())];
      AppendRanked(old(cells), rank, x);
      AppendNode(old(cells), x, nextId);
    }

    /** Appends a typed cell holding a fitting value, with an id drawn from the counter and not in use. */
    method PushTyped(x: Cell, ghost rank: seq<nat>) returns (d: CellId, ghost rank': seq<nat>)
      requires Valid() && Ranked(cells, rank) && x.Typed() && forall j :: j in x.ReadRefs() ==> j < |cells|
      requires Fits(x.kind, x.value) && x.remote.None?
      requires !wrapped ==> 0 <= x.id < nextId && forall i :: 0 <= i < |cells| && cells[i].Typed() ==> cells[i].id != x.id
      modifies this
      ensures cells == old(cells) + [x] && d == |old(cells)| && nextId == old(nextId) && wrapped == old(wrapped)
      ensures Valid() && Ranked(cells, rank') && Extends(old(cells), rank, cells, rank')
    {
      d := |cells|;
      cells := cells + [x];
      rank' := rank + [Top(rank, x.ReadRefs())];
      AppendRanked(old(cells), rank, x);
      assert forall i :: 0 <= i < |old(cells)| ==> cells[i] == old(cells)[i];
      if !wrapped { AppendTyped(old(cells), x, nextId); }
    }

    /** `Check.Clone`: both operands cloned, first then second. */
    method CloneCheck(c: CellId, ghost rank: seq<nat>) returns (d: CellId, ghost rank': seq<nat>)
      requires Valid() && Ranked(cells, rank) && c < |cells| && cells[c].CheckNode?
      modifies this
      decreases rank[c], 1
      ensures Valid() && Ranked(cells, rank') && Extends(old(cells), rank, cells, rank')
      ensures CloneOf(old(cells), rank, cells, d, c)
      ensures old(wrapped) ==> wrapped
      ensures !wrapped ==> old(nextId) <= nextId && FreshIds(old(cells), cells, old(nextId), nextId)
    {
      var name, present, mode, precompile := cells[c].name, cells[c].present, cells[c].mode, cells[c].precompile;
      var left, right := cells[c].left, cells[c].right;
      RefRank(cells, rank, c, left);
      RefRank(cells, rank, c, right);
      var left', right', r1 := ClonePair(c, left, right, rank);
      var x := CheckNode(name, present, mode, left', right', precompile, None);
      ghost var before := cells;
      d, rank' := PushNode(x, r1);
      ExtendsTransitive(old(cells), rank, before, r1, cells, rank');
      if !wrapped { FreshIdsNode(old(cells), before, x, old(nextId), nextId); }
      CloneOfGrows(old(cells), rank, before, cells, left', left);
      CloneOfGrows(old(cells), rank, before, cells, right', right);
      assert cells[d] == x;
    }

    /** `ValueList.ConvertAll(v => v.Clone())`: every operand cloned, in order. */
    method CloneOperands(c: CellId, ghost rank: seq<nat>) returns (ops': seq<CellId>, ghost rank': seq<nat>)
      requires Valid() && Ranked(cells, rank) && c < |cells| && cells[c].CalcNode?
      modifies this
      decreases rank[c], 0
      ensures Valid() && Ranked(cells, rank') && Extends(old(cells), rank, cells, rank')
      ensures |ops'| == |old(cells)[c].operands|
      ensures forall k :: 0 <= k < |ops'| ==> old(cells)[c].operands[k] < |old(cells)|
      ensures forall k :: 0 <= k < |ops'| ==> CloneOf(old(cells), rank, cells, ops'[k], old(cells)[c].operands[k])
      ensures old(wrapped) ==> wrapped
      ensures !wrapped ==> old(nextId) <= nextId && FreshIds(old(cells), cells, old(nextId), nextId)
    {
      var ops := cells[c].operands;
      OperandsRanked(cells, rank, c);
      assert forall k :: 0 <= k < |ops| ==> ops[k] < |old(cells)|;
      ops' := [];
      rank' := rank;
      var i := 0;
      while i < |ops|
        invariant 0 <= i <= |ops| && |ops'| == i
        invariant Valid() && Ranked(cells, rank') && Extends(old(cells), rank, cells, rank')
        invariant forall k :: 0 <= k < i ==> CloneOf(old(cells), rank, cells, ops'[k], ops[k])
        invariant old(wrapped) ==> wrapped
        invariant !wrapped ==> old(nextId) <= nextId && FreshIds(old(cells), cells, old(nextId), nextId)
      {
        ghost var before := cells;
        ghost var beforeRank := rank';
        var d, r1 := Clone(ops[i], rank');
        CloneOfBase(old(cells), rank, before, beforeRank, cells, d, ops[i]);
        ExtendsTransitive(old(cells), rank, before, beforeRank, cells, r1);
        ClonesAppend(old(cells), rank, before, cells, ops', d, ops);
        ops' := ops' + [d];
        rank' := r1;
        i := i + 1;
      }
    }

    /** Two children of node `c` cloned one after the other. */
    method ClonePair(c: CellId, first: CellId, second: CellId, ghost rank: seq<nat>)
      returns (first': CellId, second': CellId, ghost rank': seq<nat>)
      requires Valid() && Ranked(cells, rank) && c < |cells|
      requires first < |cells| && rank[first] < rank[c] && second < |cells| && rank[second] < rank[c]
      modifies this
      decreases rank[c], 0
      ensures Valid() && Ranked(cells, rank') && Extends(old(cells), rank, cells, rank')
      ensures CloneOf(old(cells), rank, cells, first', first) && CloneOf(old(cells), rank, cells, second', second)
      ensures old(wrapped) ==> wrapped
      ensures !wrapped ==> old(nextId) <= nextId && FreshIds(old(cells), cells, old(nextId), nextId)
    {
      ghost var r0;
      first', r0 := Clone(first, rank);
      ghost var a := cells;
      second', rank' := Clone(second, r0);
      ExtendsTransitive(old(cells), rank, a, r0, cells, rank');
      CloneOfBase(old(cells), rank, a, r0, cells, second', second);
      CloneOfGrows(old(cells), rank, a, cells, first', first);
    }

    /** Three children of node `c` cloned one after the other. */
    method CloneTriple(c: CellId, first: CellId, second: CellId, third: CellId, ghost rank: seq<nat>)
      returns (first': CellId, second': CellId, third': CellId, ghost rank': seq<nat>)
      requires Valid() && Ranked(cells, rank) && c < |cells|
      requires first < |cells| && rank[first] < rank[c] && second < |cells| && rank[second] < rank[c]
      requires third < |cells| && rank[third] < rank[c]
      modifies this
      decreases rank[c], 0
      ensures Valid() && Ranked(cells, rank') && Extends(old(cells), rank, cells, rank')
      ensures CloneOf(old(cells), rank, cells, first', first) && CloneOf(old(cells), rank, cells, second', second)
      ensures CloneOf(old(cells), rank, cells, third', third)
      ensures old(wrapped) ==> wrapped
      ensures !wrapped ==> old(nextId) <= nextId && FreshIds(old(cells), cells, old(nextId), nextId)
    {
      ghost var r0, r1;
      first', r0 := Clone(first, rank);
      ghost var a := cells;
      second', r1 := Clone(second, r0);
      ExtendsTransitive(old(cells), rank, a, r0, cells, r1);
      CloneOfBase(old(cells), rank, a, r0, cells, second', second);
      CloneOfGrows(old(cells), rank, a, cells, first', first);
      ghost var b := cells;
      third', rank' := Clone(third, r1);
      ExtendsTransitive(old(cells), rank, b, r1, cells, rank');
      CloneOfBase(old(cells), rank, b, r1, cells, third', third);
      CloneOfGrows(old(cells), rank, b, cells, first', first);
      CloneOfGrows(old(cells), rank, b, cells, second', second);
    }
  }
}
