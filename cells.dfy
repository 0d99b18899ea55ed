/**
 * The value cells and the expression nodes built on them, as one store of
 * cells addressed by index. A cell's index is its object identity: two
 * references to the same index are references to the same object, and
 * creating an object appends a cell.
 *
 * A typed cell either owns its value or forwards reads and writes to its
 * remote source; a math value reads its source through a cast; the three
 * expression nodes compute from their operands on every read, or once when
 * precompiled, keeping the first result in a buffer.
 */
module Cells {
  import opened Wrappers
  import opened CsInt
  import opened Values
  import MathCalc
  import MathCheck
  import MathIf

  type CellId = nat

  /**
   * The name of a cell nobody has named: `Name` has no initialiser, so a
   * freshly constructed cell's name is null, which the empty text stands
   * for. No modelled operation tells null from an empty name.
   */
  const Unnamed: string := ""

  datatype Cell =
    /** `ValueWrapper<T>`: a typed cell, with the id its constructor drew. */
    | Wrapper(id: int, name: string, present: bool, kind: Kind, value: Val, remote: Option<CellId>)
    /** `MathValue<T>`: a typed cell whose reads cast the value of its source. */
    | MathValue(id: int, name: string, present: bool, kind: Kind, value: Val, remote: Option<CellId>,
                source: CellId, valueType: string)
    /** `Calc`: a method applied to the operand list. */
    | CalcNode(name: string, present: bool, op: MathCalc.CalcMethod, calcType: MathCalc.CalcType,
               operands: seq<CellId>, precompile: bool, buffer: Option<Val>)
    /** `If`: the value of one of two branches, chosen by a condition. */
    | IfNode(name: string, present: bool, cond: CellId, onTrue: CellId, onFalse: CellId,
             precompile: bool, buffer: Option<Val>)
    /** `Check`: a comparison of two operands. */
    | CheckNode(name: string, present: bool, mode: MathCheck.CheckMode, left: CellId, right: CellId,
                precompile: bool, buffer: Option<Val>)
  {
    /** The typed cells: `ValueWrapper<T>` and its subclass. */
    predicate Typed() { Wrapper? || MathValue? }

    /** The expression nodes, which compute their value. */
    predicate IsNode() { CalcNode? || IfNode? || CheckNode? }

    /** The cells a read of this one may read in turn. */
    function ReadRefs(): seq<CellId>
    {
      match this
      case Wrapper(_, _, _, _, _, remote) => if remote.Some? then [remote.value] else []
      case MathValue(_, _, _, _, _, _, source, _) => [source]
      case CalcNode(_, _, _, _, operands, _, _) => operands
      case IfNode(_, _, cond, onTrue, onFalse, _, _) => [cond, onTrue, onFalse]
      case CheckNode(_, _, _, left, right, _, _) => [left, right]
    }
  }

  /**
   * `rank` orders the cells so that every read goes to a cell of lower
   * rank: the cell graph has no cycle through reads, which is what makes a
   * read return at all.
   */
  ghost predicate Ranked(cells: seq<Cell>, rank: seq<nat>)
  {
    && |rank| == |cells|
    && forall i, j :: 0 <= i < |cells| && j in cells[i].ReadRefs() ==> j < |cells| && rank[j] < rank[i]
  }

  /** Every reference points into the store. */
  ghost predicate Closed(cells: seq<Cell>)
  {
    forall i, j :: 0 <= i < |cells| && j in cells[i].ReadRefs() ==> j < |cells|
  }

  lemma RankedClosed(cells: seq<Cell>, rank: seq<nat>)
    requires Ranked(cells, rank)
    ensures Closed(cells)
  {
    forall i, j | 0 <= i < |cells| && j in cells[i].ReadRefs() ensures j < |cells| {
      RefRank(cells, rank, i, j);
    }
  }

  lemma RefRank(cells: seq<Cell>, rank: seq<nat>, i: CellId, j: CellId)
    requires Ranked(cells, rank) && i < |cells| && j in cells[i].ReadRefs()
    ensures j < |cells| && rank[j] < rank[i]
  {
  }

  /**
   * The value a read of cell `c` gives: a typed cell's own value, or that
   * of its remote source; a math value's source value cast to its type; an
   * expression node's buffer when it is precompiled and has computed once,
   * and otherwise what it computes.
   */
  ghost function Eval(cells: seq<Cell>, rank: seq<nat>, c: CellId): Result<Val>
    requires Ranked(cells, rank) && c < |cells|
    decreases rank[c], 2
  {
    match cells[c]
    case Wrapper(_, _, _, _, value, remote) =>
      if remote.Some? then
        RefRank(cells, rank, c, remote.value);
        Eval(cells, rank, remote.value)
      else Ok(value)
    case MathValue(_, _, _, kind, _, _, source, _) =>
      RefRank(cells, rank, c, source);
      (match Eval(cells, rank, source) case Fail(f) => Fail(f) case Ok(v) => Cast(kind, v))
    case _ =>
      if cells[c].precompile && cells[c].buffer.Some? then Ok(cells[c].buffer.value)
      else Computed(cells, rank, c)
  }

  /** What an expression node computes from its operands, its buffer aside. */
  ghost function Computed(cells: seq<Cell>, rank: seq<nat>, c: CellId): Result<Val>
    requires Ranked(cells, rank) && c < |cells| && cells[c].IsNode()
    decreases rank[c], 1
  {
    match cells[c]
    case CalcNode(_, _, op, calcType, _, _, _) =>
      MathCalc.CalcValue(calcType, op, OperandResults(cells, rank, c))
    case IfNode(_, _, cond, onTrue, onFalse, _, _) =>
      RefRank(cells, rank, c, cond);
      RefRank(cells, rank, c, onTrue);
      RefRank(cells, rank, c, onFalse);
      (match Eval(cells, rank, cond)
       case Fail(f) => Fail(f)
       case Ok(v) => if MathIf.Truthy(v) then Eval(cells, rank, onTrue) else Eval(cells, rank, onFalse))
    case CheckNode(_, _, mode, left, right, _, _) =>
      RefRank(cells, rank, c, left);
      RefRank(cells, rank, c, right);
      (match Eval(cells, rank, left)
       case Fail(f) => Fail(f)
       case Ok(a) =>
         match Eval(cells, rank, right)
         case Fail(f) => Fail(f)
         case Ok(b) => Ok(MathCheck.Compare(mode, a, b)))
  }

  /** The results of reading each operand of the calc node `c`. */
  ghost function OperandResults(cells: seq<Cell>, rank: seq<nat>, c: CellId): (rs: seq<Result<Val>>)
    requires Ranked(cells, rank) && c < |cells| && cells[c].CalcNode?
    ensures |rs| == |cells[c].operands|
    decreases rank[c], 0
  {
    var ops := cells[c].operands;
    OperandsRanked(cells, rank, c);
    seq(|ops|, j requires 0 <= j < |ops| => Eval(cells, rank, ops[j]))
  }

  lemma OperandsRanked(cells: seq<Cell>, rank: seq<nat>, c: CellId)
    requires Ranked(cells, rank) && c < |cells| && cells[c].CalcNode?
    ensures forall j :: 0 <= j < |cells[c].operands| ==>
      cells[c].operands[j] < |cells| && rank[cells[c].operands[j]] < rank[c]
  {
    forall j | 0 <= j < |cells[c].operands| {
      RefRank(cells, rank, c, cells[c].operands[j]);
    }
  }

  lemma OperandResult(cells: seq<Cell>, rank: seq<nat>, c: CellId, j: nat)
    requires Ranked(cells, rank) && c < |cells| && cells[c].CalcNode? && j < |cells[c].operands|
    ensures cells[c].operands[j] < |cells|
    ensures OperandResults(cells, rank, c)[j] == Eval(cells, rank, cells[c].operands[j])
  {
    OperandsRanked(cells, rank, c);
  }

  /** `y` is the node `x` with its empty buffer filled, nothing else changed. */
  ghost predicate Filled(x: Cell, y: Cell)
  {
    && x.IsNode() && x.precompile && x.buffer.None?
    && y.IsNode() && y.buffer.Some? && y == x.(buffer := y.buffer)
  }

  /** A read changes no cell but by filling empty buffers. */
  ghost predicate Grown(a: seq<Cell>, b: seq<Cell>)
  {
    && |b| == |a|
    && forall i :: 0 <= i < |a| ==> b[i] == a[i] || Filled(a[i], b[i])
  }

  /** Every buffer that was filled holds the value its node had. */
  ghost predicate BufferSound(a: seq<Cell>, b: seq<Cell>, rank: seq<nat>)
    requires Ranked(a, rank)
  {
    && Grown(a, b)
    && forall i :: 0 <= i < |a| && b[i] != a[i] ==> Eval(a, rank, i) == Ok(b[i].buffer.value)
  }

  lemma FilledRefs(x: Cell, y: Cell)
    requires Filled(x, y)
    ensures y.ReadRefs() == x.ReadRefs()
  {
  }

  lemma GrownRanked(a: seq<Cell>, b: seq<Cell>, rank: seq<nat>)
    requires Ranked(a, rank) && Grown(a, b)
    ensures Ranked(b, rank)
  {
    forall i: int, j: CellId | 0 <= i < |b| && j in b[i].ReadRefs() ensures j < |b| && rank[j] < rank[i] {
      if b[i] != a[i] { FilledRefs(a[i], b[i]); }
      RefRank(a, rank, i, j);
    }
  }

  lemma GrownTransitive(a: seq<Cell>, b: seq<Cell>, c: seq<Cell>)
    requires Grown(a, b) && Grown(b, c)
    ensures Grown(a, c)
  {
  }

  /**
   * Two stores that agree on every cell below rank `bound` read alike
   * there: a read only reaches cells of lower rank.
   */
  lemma {:induction false} EvalAgree(a: seq<Cell>, b: seq<Cell>, rank: seq<nat>, bound: nat, c: CellId)
    requires Ranked(a, rank) && Ranked(b, rank) && |a| == |b|
    requires forall j :: 0 <= j < |a| && rank[j] < bound ==> a[j] == b[j]
    requires c < |a| && rank[c] < bound
    ensures Eval(a, rank, c) == Eval(b, rank, c)
    decreases rank[c], 1
  {
    match a[c]
    case Wrapper(_, _, _, _, _, remote) =>
      if remote.Some? {
        RefRank(a, rank, c, remote.value);
        EvalAgree(a, b, rank, bound, remote.value);
      }
    case MathValue(_, _, _, _, _, _, source, _) =>
      RefRank(a, rank, c, source);
      EvalAgree(a, b, rank, bound, source);
    case _ =>
      if !(a[c].precompile && a[c].buffer.Some?) {
        ComputedAgree(a, b, rank, bound, c);
      }
  }

  lemma {:induction false} ComputedAgree(a: seq<Cell>, b: seq<Cell>, rank: seq<nat>, bound: nat, c: CellId)
    requires Ranked(a, rank) && Ranked(b, rank) && |a| == |b|
    requires forall j :: 0 <= j < |a| && rank[j] < bound ==> a[j] == b[j]
    requires c < |a| && rank[c] <= bound && a[c].IsNode() && b[c].IsNode() && b[c] == a[c].(buffer := b[c].buffer)
    ensures Computed(a, rank, c) == Computed(b, rank, c)
    decreases rank[c], 0
  {
    match a[c]
    case CalcNode(_, _, _, _, operands, _, _) =>
      OperandsRanked(a, rank, c);
      forall j | 0 <= j < |operands|
        ensures OperandResults(a, rank, c)[j] == OperandResults(b, rank, c)[j]
      {
        OperandResult(a, rank, c, j);
        OperandResult(b, rank, c, j);
        EvalAgree(a, b, rank, bound, operands[j]);
      }
      assert OperandResults(a, rank, c) == OperandResults(b, rank, c);
    case IfNode(_, _, cond, onTrue, onFalse, _, _) =>
      RefRank(a, rank, c, cond);
      RefRank(a, rank, c, onTrue);
      RefRank(a, rank, c, onFalse);
      EvalAgree(a, b, rank, bound, cond);
      EvalAgree(a, b, rank, bound, onTrue);
      EvalAgree(a, b, rank, bound, onFalse);
    case CheckNode(_, _, _, left, right, _, _) =>
      RefRank(a, rank, c, left);
      RefRank(a, rank, c, right);
      EvalAgree(a, b, rank, bound, left);
      EvalAgree(a, b, rank, bound, right);
  }

  /** Filling buffers soundly changes the value of no read. */
  lemma {:induction false} SoundPreservesEval(a: seq<Cell>, b: seq<Cell>, rank: seq<nat>, c: CellId)
    requires Ranked(a, rank) && BufferSound(a, b, rank) && c < |a|
    ensures Ranked(b, rank) && Eval(b, rank, c) == Eval(a, rank, c)
    decreases rank[c], 1
  {
    GrownRanked(a, b, rank);
    if b[c] == a[c] {
      match a[c]
      case Wrapper(_, _, _, _, _, remote) =>
        if remote.Some? {
          RefRank(a, rank, c, remote.value);
          SoundPreservesEval(a, b, rank, remote.value);
        }
      case MathValue(_, _, _, _, _, _, source, _) =>
        RefRank(a, rank, c, source);
        SoundPreservesEval(a, b, rank, source);
      case _ =>
        if !(a[c].precompile && a[c].buffer.Some?) {
          SoundPreservesComputed(a, b, rank, c);
        }
    }
  }

  lemma {:induction false} SoundPreservesComputed(a: seq<Cell>, b: seq<Cell>, rank: seq<nat>, c: CellId)
    requires Ranked(a, rank) && BufferSound(a, b, rank) && c < |a| && a[c].IsNode()
    requires b[c].IsNode() && b[c] == a[c].(buffer := b[c].buffer)
    ensures Ranked(b, rank) && Computed(b, rank, c) == Computed(a, rank, c)
    decreases rank[c], 0
  {
    GrownRanked(a, b, rank);
    match a[c]
    case CalcNode(_, _, _, _, operands, _, _) =>
      OperandsRanked(a, rank, c);
      forall j | 0 <= j < |operands|
        ensures OperandResults(a, rank, c)[j] == OperandResults(b, rank, c)[j]
      {
        OperandResult(a, rank, c, j);
        OperandResult(b, rank, c, j);
        SoundPreservesEval(a, b, rank, operands[j]);
      }
      assert OperandResults(a, rank, c) == OperandResults(b, rank, c);
    case IfNode(_, _, cond, onTrue, onFalse, _, _) =>
      RefRank(a, rank, c, cond);
      RefRank(a, rank, c, onTrue);
      RefRank(a, rank, c, onFalse);
      SoundPreservesEval(a, b, rank, cond);
      SoundPreservesEval(a, b, rank, onTrue);
      SoundPreservesEval(a, b, rank, onFalse);
    case CheckNode(_, _, _, left, right, _, _) =>
      RefRank(a, rank, c, left);
      RefRank(a, rank, c, right);
      SoundPreservesEval(a, b, rank, left);
      SoundPreservesEval(a, b, rank, right);
  }

  lemma BufferSoundTransitive(a: seq<Cell>, b: seq<Cell>, c: seq<Cell>, rank: seq<nat>)
    requires Ranked(a, rank) && BufferSound(a, b, rank)
    requires Ranked(b, rank) && BufferSound(b, c, rank)
    ensures BufferSound(a, c, rank)
  {
    GrownTransitive(a, b, c);
    forall i | 0 <= i < |a| && c[i] != a[i] ensures Eval(a, rank, i) == Ok(c[i].buffer.value) {
      if c[i] != b[i] {
        SoundPreservesEval(a, b, rank, i);
      }
    }
  }

  /**
   * The typing a typed cell's fields carry: its own value fits its type,
   * and its remote source is a typed cell of the same type.
   */
  ghost predicate WellTyped(cells: seq<Cell>)
  {
    forall i :: 0 <= i < |cells| && cells[i].Typed() ==>
      && Fits(cells[i].kind, cells[i].value)
      && (cells[i].remote.Some? ==>
            cells[i].remote.value < |cells| && cells[cells[i].remote.value].Typed()
            && cells[cells[i].remote.value].kind == cells[i].kind)
  }

  /** A rank above every cell in `refs`. */
  function Top(rank: seq<nat>, refs: seq<CellId>): (t: nat)
    requires forall j :: j in refs ==> j < |rank|
    ensures forall j :: j in refs ==> rank[j] < t
  {
    if |refs| == 0 then 0
    else
      assert refs[0] in refs && forall j :: j in refs[1..] ==> j in refs;
      var t := Top(rank, refs[1..]);
      if rank[refs[0]] < t then t else rank[refs[0]] + 1
  }

  /** Appending a cell that only reads existing cells keeps the store ranked. */
  lemma AppendRanked(cells: seq<Cell>, rank: seq<nat>, x: Cell)
    requires Ranked(cells, rank) && forall j :: j in x.ReadRefs() ==> j < |cells|
    ensures Ranked(cells + [x], rank + [Top(rank, x.ReadRefs())])
  {
    var top := Top(rank, x.ReadRefs());
    var cells', rank' := cells + [x], rank + [top];
    forall i, j {:trigger j in cells'[i].ReadRefs()} | 0 <= i < |cells'| && j in cells'[i].ReadRefs() ensures j < |cells'| && rank'[j] < rank'[i] {
      if i < |cells| {
        assert cells'[i] == cells[i];
        RefRank(cells, rank, i, j);
      } else {
        assert cells'[i] == x && rank'[i] == top;
        assert j in x.ReadRefs();
        assert rank'[j] == rank[j];
      }
    }
    assert Ranked(cells', rank');
  }

  /**
   * The cell a write to `c` lands in: following remote sources to a typed
   * cell that has none. A math value on the way, or an expression node,
   * ignores the write.
   */
  ghost function WriteTarget(cells: seq<Cell>, rank: seq<nat>, c: CellId): (w: Option<CellId>)
    requires Ranked(cells, rank) && c < |cells|
    ensures w.Some? ==> w.value < |cells| && cells[w.value].Wrapper? && cells[w.value].remote.None?
    ensures w.Some? ==> w.value == c || rank[w.value] < rank[c]
    decreases rank[c]
  {
    match cells[c]
    case Wrapper(_, _, _, _, _, remote) =>
      if remote.Some? then
        RefRank(cells, rank, c, remote.value);
        WriteTarget(cells, rank, remote.value)
      else Some(c)
    case _ => None
  }

  /** The target of a write to `c` reads as `c` does, and has `c`'s type. */
  lemma {:induction false} WriteTargetReads(cells: seq<Cell>, rank: seq<nat>, c: CellId)
    requires Ranked(cells, rank) && c < |cells| && WriteTarget(cells, rank, c).Some?
    ensures Eval(cells, rank, c) == Eval(cells, rank, WriteTarget(cells, rank, c).value)
    ensures WellTyped(cells) ==> cells[WriteTarget(cells, rank, c).value].kind == cells[c].kind
    decreases rank[c]
  {
    if cells[c].remote.Some? {
      RefRank(cells, rank, c, cells[c].remote.value);
      WriteTargetReads(cells, rank, cells[c].remote.value);
    }
  }

  /** The typed cell `x` holding `v` as its own value. */
  function WithValue(x: Cell, v: Val): (y: Cell)
    requires x.Wrapper?
    ensures y.Wrapper? && y.value == v && y.ReadRefs() == x.ReadRefs()
  {
    Wrapper(x.id, x.name, x.present, x.kind, v, x.remote)
  }

  /** Changing cells without changing what they read keeps a ranking. */
  lemma SameRefsRanked(a: seq<Cell>, b: seq<Cell>, rank: seq<nat>)
    requires Ranked(a, rank) && |b| == |a|
    requires forall i :: 0 <= i < |a| ==> b[i].ReadRefs() == a[i].ReadRefs()
    ensures Ranked(b, rank)
  {
    forall i: int, j: int | 0 <= i < |b| && j in b[i].ReadRefs() ensures j < |b| && rank[j] < rank[i] {
      RefRank(a, rank, i, j);
    }
  }

  /** The typed cell `x` with `r` as its remote source. */
  function WithRemote(x: Cell, r: Option<CellId>): (y: Cell)
    requires x.Typed()
    ensures y.Typed() && y.remote == r && y.kind == x.kind && y.id == x.id
  {
    match x
    case Wrapper(id, name, present, kind, value, _) => Wrapper(id, name, present, kind, value, r)
    case MathValue(id, name, present, kind, value, _, source, valueType) =>
      MathValue(id, name, present, kind, value, r, source, valueType)
  }

  /** A read of cell `i` reaches cell `c`: `i` is `c`, or one of its reads reaches it. */
  ghost predicate Reaches(cells: seq<Cell>, rank: seq<nat>, i: CellId, c: CellId)
    requires Ranked(cells, rank) && i < |cells|
    decreases rank[i]
  {
    i == c || exists j :: j in cells[i].ReadRefs() && j < |cells| && rank[j] < rank[i] && Reaches(cells, rank, j, c)
  }

  /**
   * The ranking kept after `c` takes `s` as its remote source: every cell
   * from which a read reaches `c` is lifted above `s`.
   */
  ghost function RemoteLift(cells: seq<Cell>, rank: seq<nat>, c: CellId, s: CellId): (r: seq<nat>)
    requires Ranked(cells, rank) && s < |cells|
    ensures |r| == |cells|
  {
    seq(|cells|, i requires 0 <= i < |cells| => rank[i] + if Reaches(cells, rank, i, c) then rank[s] + 1 else 0)
  }

  /**
   * Setting a remote source keeps every read finite when no read from the
   * source reaches the cell: the store is ranked by `RemoteRank`.
   */
  lemma RemoteRanked(cells: seq<Cell>, rank: seq<nat>, c: CellId, s: CellId)
    requires Ranked(cells, rank) && c < |cells| && s < |cells| && cells[c].Typed()
    requires !Reaches(cells, rank, s, c)
    ensures Ranked(cells[c := WithRemote(cells[c], Some(s))], RemoteLift(cells, rank, c, s))
  {
    var b := cells[c := WithRemote(cells[c], Some(s))];
    var r := RemoteLift(cells, rank, c, s);
    forall i, j | 0 <= i < |b| && j in b[i].ReadRefs() ensures j < |b| && r[j] < r[i] {
      if i == c && b[c].Wrapper? {
        assert j == s;
        assert Reaches(cells, rank, c, c);
      } else {
        assert j in cells[i].ReadRefs();
        RefRank(cells, rank, i, j);
        if Reaches(cells, rank, j, c) {
          assert Reaches(cells, rank, i, c);
        }
      }
    }
    assert Ranked(b, r);
  }

  /**
   * Along a read from `i` to `c` that does not pass `c` earlier, any
   * ranking of a store that keeps those reads puts `c` no higher than `i`.
   */
  lemma {:induction false} ReachesBelow(cells: seq<Cell>, rank: seq<nat>, b: seq<Cell>, rank': seq<nat>, i: CellId, c: CellId)
    requires Ranked(cells, rank) && i < |cells| && c < |cells| && Reaches(cells, rank, i, c)
    requires Ranked(b, rank') && |b| == |cells|
    requires forall k :: 0 <= k < |cells| && k != c ==> b[k].ReadRefs() == cells[k].ReadRefs()
    ensures rank'[c] <= rank'[i]
    decreases rank[i]
  {
    if i != c {
      var j :| j in cells[i].ReadRefs() && j < |cells| && rank[j] < rank[i] && Reaches(cells, rank, j, c);
      ReachesBelow(cells, rank, b, rank', j, c);
      RefRank(b, rank', i, j);
    }
  }

  /**
   * Setting the remote source of a typed cell to a cell whose read reaches
   * it back closes a cycle: no ranking of the new store exists, so a read
   * of `c` never returns.
   */
  lemma RemoteCycleUnranked(cells: seq<Cell>, rank: seq<nat>, c: CellId, s: CellId)
    requires Ranked(cells, rank) && c < |cells| && s < |cells| && cells[c].Wrapper?
    requires Reaches(cells, rank, s, c)
    ensures forall rank' {:trigger Ranked(cells[c := WithRemote(cells[c], Some(s))], rank')} :: !Ranked(cells[c := WithRemote(cells[c], Some(s))], rank')
  {
    var b := cells[c := WithRemote(cells[c], Some(s))];
    forall rank' | Ranked(b, rank') ensures false {
      ReachesBelow(cells, rank, b, rank', s, c);
      RefRank(b, rank', c, s);
    }
  }

  /** Every typed cell carries an id the counter has already handed out. */
  ghost predicate IdsBelow(cells: seq<Cell>, n: int)
  {
    forall i :: 0 <= i < |cells| && cells[i].Typed() ==> 0 <= cells[i].id < n
  }

  /** No two typed cells share an id. */
  ghost predicate IdsDistinct(cells: seq<Cell>)
  {
    forall i, j :: 0 <= i < j < |cells| && cells[i].Typed() && cells[j].Typed() ==> cells[i].id != cells[j].id
  }

  /** Changing the value of a write target moves no other write target. */
  lemma {:induction false} WriteTargetStable(cells: seq<Cell>, rank: seq<nat>, c: CellId, w: CellId, v: Val)
    requires Ranked(cells, rank) && c < |cells| && w < |cells| && cells[w].Wrapper?
    ensures Ranked(cells[w := WithValue(cells[w], v)], rank)
    ensures WriteTarget(cells[w := WithValue(cells[w], v)], rank, c) == WriteTarget(cells, rank, c)
    decreases rank[c]
  {
    var b := cells[w := WithValue(cells[w], v)];
    SameRefsRanked(cells, b, rank);
    assert b[c].Wrapper? == cells[c].Wrapper?;
    if cells[c].Wrapper? && cells[c].remote.Some? {
      assert b[c].remote == cells[c].remote;
      RefRank(cells, rank, c, cells[c].remote.value);
      WriteTargetStable(cells, rank, cells[c].remote.value, w, v);
    }
  }

  /**
   * Storing a value that fits the written cell's type in its write target:
   * the store stays ranked and well typed, ids do not change, and the
   * written cell then reads that value.
   */
  lemma WriteEffect(cells: seq<Cell>, rank: seq<nat>, c: CellId, v: Val, n: int)
    requires Ranked(cells, rank) && c < |cells| && WellTyped(cells)
    requires WriteTarget(cells, rank, c).Some? && Fits(cells[c].kind, v)
    ensures var w := WriteTarget(cells, rank, c).value;
      var b := cells[w := WithValue(cells[w], v)];
      && Ranked(b, rank) && WellTyped(b) && Eval(b, rank, c) == Ok(v)
      && (IdsBelow(cells, n) ==> IdsBelow(b, n)) && (IdsDistinct(cells) ==> IdsDistinct(b))
  {
    var w := WriteTarget(cells, rank, c).value;
    WriteTargetReads(cells, rank, c);
    WriteTargetStable(cells, rank, c, w, v);
    var b := cells[w := WithValue(cells[w], v)];
    WriteTargetReads(b, rank, c);
    assert forall i :: 0 <= i < |b| ==> b[i].Typed() == cells[i].Typed();
    assert forall i :: 0 <= i < |b| && b[i].Typed() ==> b[i].id == cells[i].id && b[i].kind == cells[i].kind;
  }

  /**
   * Every buffer holds what its node computes: true of a store whose
   * buffers are empty, kept by reads that succeed, and lost when a write
   * changes an operand of a filled buffer.
   */
  ghost predicate Coherent(cells: seq<Cell>, rank: seq<nat>)
    requires Ranked(cells, rank)
  {
    forall i :: 0 <= i < |cells| && cells[i].IsNode() && cells[i].precompile && cells[i].buffer.Some? ==>
      Computed(cells, rank, i) == Ok(cells[i].buffer.value)
  }

  /** In a coherent store a node reads as what it computes: the buffer is invisible. */
  lemma CoherentReadsComputed(cells: seq<Cell>, rank: seq<nat>, c: CellId)
    requires Ranked(cells, rank) && Coherent(cells, rank) && c < |cells| && cells[c].IsNode()
    ensures Eval(cells, rank, c) == Computed(cells, rank, c)
  {
  }

  /** A read that succeeds keeps a coherent store coherent. */
  lemma ReadKeepsCoherent(a: seq<Cell>, b: seq<Cell>, rank: seq<nat>)
    requires Ranked(a, rank) && Coherent(a, rank) && BufferSound(a, b, rank)
    ensures Ranked(b, rank) && Coherent(b, rank)
  {
    GrownRanked(a, b, rank);
    forall i | 0 <= i < |b| && b[i].IsNode() && b[i].precompile && b[i].buffer.Some?
      ensures Computed(b, rank, i) == Ok(b[i].buffer.value)
    {
      SoundPreservesComputed(a, b, rank, i);
    }
  }
}

