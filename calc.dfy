/**
 * The arithmetic node of the math expressions: a method and a result type
 * applied to the list of operand cells. This module holds what a node
 * computes from the results of reading its operands; reading the cells
 * themselves (and the precompile buffer) is in module Cells.
 */
module MathCalc {
  import opened Wrappers
  import opened CsInt
  import opened Text
  import opened Values

  datatype CalcMethod =
    | Add | Sub | Mult | Div | Neg | And | Or | Xor | Nor | Xnor | Not | Nand
    | Concat | Pow | FromDouble | FromInt | FromBool | FromString

  datatype CalcType = Double | Int | Bool | String

  /** The method/type combinations a node may be built with. */
  predicate ValidMethod(t: CalcType, m: CalcMethod)
  {
    match t
    case Double | Int => m in {Add, Sub, Mult, Div, Pow, Neg, FromBool, FromDouble, FromInt, FromString}
    case Bool => m in {And, Or, Xor, Nand, Nor, Xnor, Not, FromBool, FromDouble, FromInt, FromString}
    case String => m in {Concat, FromBool, FromDouble, FromInt, FromString}
  }

  /** The static type of a node's result. */
  function ResultKind(t: CalcType): Kind
  {
    match t
    case Double => KDouble
    case Int => KInt
    case Bool => KBool
    case String => KString
  }

  /** `a ^ n` over the integers. */
  function Power(a: int, n: nat): int
  {
    if n == 0 then 1 else a * Power(a, n - 1)
  }

  /**
   * `(int)Math.Pow(a, b)` for ints: exact whenever the true power is an int.
   * A negative exponent gives a fraction that the cast truncates: 0 for
   * |a| >= 2, and 1 or -1 for a = 1 or -1. Zero to a negative power is
   * infinite, and an out-of-range power is rounded; the cast of either is
   * outside the model.
   */
  function PowInt(a: int, b: int): (r: Result<int>)
    ensures r.Ok? ==> IsInt(r.value)
    ensures b >= 0 && IsInt(Power(a, b)) ==> r == Ok(Power(a, b))
  {
    if b >= 0 then (if IsInt(Power(a, b)) then Ok(Power(a, b)) else Fail(OutsideModel))
    else if a == 0 then Fail(OutsideModel)
    else if a == 1 then Ok(1)
    else if a == -1 then Ok(if b % 2 == 0 then 1 else -1)
    else Ok(0)
  }

  /**
   * Int division `a / b` with .NET's exceptions: a zero divisor throws
   * DivideByZeroException and int.MinValue / -1 throws OverflowException.
   */
  function DivInt(a: int, b: int): (r: Result<int>)
    requires IsInt(a) && IsInt(b)
    ensures r == Fail(DivideByZero) <==> b == 0
    ensures r == Fail(Overflow) <==> a == MinInt && b == -1
    ensures r.Ok? ==> IsInt(r.value) && Abs(a - r.value * b) < Abs(b)
  {
    if b == 0 then Fail(DivideByZero)
    else if a == MinInt && b == -1 then Fail(Overflow)
    else
      var q := TruncDiv(a, b);
      TruncDivRemainder(a, b);
      QuotientInRange(a, b);
      Ok(q)
  }

  lemma QuotientInRange(a: int, b: int)
    requires IsInt(a) && IsInt(b) && b != 0 && !(a == MinInt && b == -1)
    ensures IsInt(TruncDiv(a, b))
  {
    var m := Abs(a) / Abs(b);
    DivBounds(Abs(a), Abs(b));
    assert TruncDiv(a, b) == if (a < 0) == (b < 0) then m else -m;
  }

  /** Dividing by at least one cannot grow a natural; dividing by at least two halves it. */
  lemma DivBounds(x: nat, y: nat)
    requires y >= 1
    ensures x / y <= x
    ensures y == 1 ==> x / y == x
    ensures y >= 2 ==> 2 * (x / y) <= x
  {
    var q := x / y;
    QuotientFacts(x, y);
    assert q * y <= x;
    MulMono(q, 1, y);
    if y >= 2 {
      MulMono(q, 2, y);
    }
  }

  lemma MulMono(m: nat, x: nat, y: nat)
    requires x <= y
    ensures m * x <= m * y
  {
  }

  /** `(int)d`: truncation toward zero. */
  function Truncate(d: real): int
  {
    if d >= 0.0 then d.Floor else -((-d).Floor)
  }

  /**
   * A step that the accumulator already decides: `!(v && x)` with v false
   * and `!(v || x)` with v true do not read the operand at all.
   */
  function Decided(m: CalcMethod, acc: Val): Option<Val>
  {
    match m
    case Nand => if acc == VBool(false) then Some(VBool(true)) else None
    case Nor => if acc == VBool(true) then Some(VBool(false)) else None
    case _ => None
  }

  /**
   * One step of a fold: the operand is cast to the node's type (as
   * `(int)v.Value`, `(bool)v.Value` do) and combined with the accumulator.
   * Int arithmetic wraps around as unchecked C# does; concat appends the
   * operand's text, nothing for null.
   */
  function Step(t: CalcType, m: CalcMethod, acc: Val, x: Val): Result<Val>
  {
    match t
    case Int =>
      (match Cast(KInt, x)
       case Fail(f) => Fail(f)
       case Ok(v) => if !acc.VInt? || !IsInt(acc.i) || !IsInt(v.i) then Ok(VNull) else IntOp(m, acc.i, v.i))
    case Bool =>
      (match Cast(KBool, x)
       case Fail(f) => Fail(f)
       case Ok(v) => if !acc.VBool? then Ok(VNull) else BoolOp(m, acc.b, v.b))
    case String =>
      if !acc.VStr? then Ok(VNull)
      else if x == VNull then Ok(acc)
      else (match ValText(x) case Ok(s) => Ok(VStr(acc.s + s)) case Fail(f) => Fail(f))
    case Double => Fail(OutsideModel)
  }

  /** An int step on two ints. */
  function IntOp(m: CalcMethod, a: int, b: int): Result<Val>
    requires IsInt(a) && IsInt(b)
  {
    match m
    case Add => Ok(VInt(Wrap(a + b)))
    case Mult => Ok(VInt(Wrap(a * b)))
    case Sub => Ok(VInt(Wrap(a - b)))
    case Div => (match DivInt(a, b) case Ok(q) => Ok(VInt(q)) case Fail(f) => Fail(f))
    case Pow => (match PowInt(a, b) case Ok(p) => Ok(VInt(p)) case Fail(f) => Fail(f))
    case _ => Ok(VNull)
  }

  /** A bool step on two bools. */
  function BoolOp(m: CalcMethod, a: bool, b: bool): Result<Val>
  {
    match m
    case And => Ok(VBool(a && b))
    case Or => Ok(VBool(a || b))
    case Xor => Ok(VBool(a != b))
    case Nand => Ok(VBool(!(a && b)))
    case Nor => Ok(VBool(!(a || b)))
    case Xnor => Ok(VBool(a == b))
    case _ => Ok(VNull)
  }

  /**
   * The accumulator loop over the operand results `rs`, left to right: a
   * failed read or step ends it with that failure; a decided step skips the
   * read.
   */
  function Fold(t: CalcType, m: CalcMethod, init: Val, rs: seq<Result<Val>>): Result<Val>
    decreases |rs|
  {
    if |rs| == 0 then Ok(init) else Next(t, m, Fold(t, m, init, rs[..|rs| - 1]), rs[|rs| - 1])
  }

  /** One turn of the loop: the accumulator so far and the next operand's read. */
  function Next(t: CalcType, m: CalcMethod, prev: Result<Val>, r: Result<Val>): Result<Val>
  {
    match prev
    case Fail(f) => Fail(f)
    case Ok(acc) =>
      match Decided(m, acc)
      case Some(v) => Ok(v)
      case None =>
        match r
        case Fail(f) => Fail(f)
        case Ok(x) => Step(t, m, acc, x)
  }

  /** The loop over one more operand takes one more turn. */
  lemma FoldExtend(t: CalcType, m: CalcMethod, init: Val, rs: seq<Result<Val>>, k: nat)
    requires k < |rs|
    ensures Fold(t, m, init, rs[..k + 1]) == Next(t, m, Fold(t, m, init, rs[..k]), rs[k])
  {
    assert rs[..k + 1][..k] == rs[..k];
  }

  /** A failure ends the loop: once a prefix fails, so does every extension. */
  lemma {:induction false} FoldFailSticks(t: CalcType, m: CalcMethod, init: Val, rs: seq<Result<Val>>, k: nat)
    requires k <= |rs| && Fold(t, m, init, rs[..k]).Fail?
    ensures Fold(t, m, init, rs) == Fold(t, m, init, rs[..k])
    decreases |rs| - k
  {
    if k < |rs| {
      assert rs[..k + 1][..k] == rs[..k];
      FoldFailSticks(t, m, init, rs, k + 1);
    } else {
      assert rs[..k] == rs;
    }
  }

  /** A turn of the loop from a prefix that was computed: the longer prefix, and a failure that ends the loop. */
  lemma FoldTurn(t: CalcType, m: CalcMethod, init: Val, rs: seq<Result<Val>>, k: nat, acc: Val, s: Result<Val>)
    requires k < |rs| && Fold(t, m, init, rs[..k]) == Ok(acc) && s == Next(t, m, Ok(acc), rs[k])
    ensures Fold(t, m, init, rs[..k + 1]) == s
    ensures s.Fail? ==> Fold(t, m, init, rs) == s
  {
    FoldExtend(t, m, init, rs, k);
    if s.Fail? {
      FoldFailSticks(t, m, init, rs, k + 1);
    }
  }

  /** The loops that start from the first operand's value. */
  function FoldFromFirst(t: CalcType, m: CalcMethod, rs: seq<Result<Val>>): Result<Val>
    requires |rs| > 0
  {
    match rs[0]
    case Fail(f) => Fail(f)
    case Ok(x) =>
      match Cast(ResultKind(t), x)
      case Fail(f) => Fail(f)
      case Ok(first) => Fold(t, m, first, rs[1..])
  }

  /** The first operand's value cast to the value type `k`, as `(int)ValueList[0].Value` does. */
  function First(rs: seq<Result<Val>>, k: Kind): (r: Result<Val>)
    requires |rs| > 0 && !IsRefKind(k)
    ensures r.Ok? ==> r == rs[0] && KindOf(r.value) == Some(k)
  {
    match rs[0]
    case Fail(f) => Fail(f)
    case Ok(x) => Cast(k, x)
  }

  /** `ValueList[0].Value.ToString()`, null throwing. */
  function FirstText(rs: seq<Result<Val>>): Result<string>
    requires |rs| > 0
  {
    match rs[0]
    case Fail(f) => Fail(f)
    case Ok(x) => ValText(x)
  }

  /**
   * What a node computes from its operands' read results `rs`. The double
   * branch is outside the model; a combination that ValidMethod rejects
   * falls through to null, as does neg with no operand.
   */
  function CalcValue(t: CalcType, m: CalcMethod, rs: seq<Result<Val>>): Result<Val>
  {
    match t
    case Double =>
      if !ValidMethod(Double, m) || (m == Neg && |rs| == 0) then Ok(VNull) else Fail(OutsideModel)
    case Int => IntValue(m, rs)
    case Bool => BoolValue(m, rs)
    case String => StringValue(m, rs)
  }

  /** What an int node computes. */
  function IntValue(m: CalcMethod, rs: seq<Result<Val>>): Result<Val>
  {
    match m
    case Add => Fold(Int, Add, VInt(0), rs)
    case Mult => Fold(Int, Mult, VInt(1), rs)
    case Sub | Div | Pow => if |rs| == 0 then Ok(VInt(0)) else FoldFromFirst(Int, m, rs)
    case Neg => if |rs| == 0 then Ok(VNull) else (match First(rs, KInt) case Fail(f) => Fail(f) case Ok(v) => Ok(VInt(Wrap(-v.i))))
    case FromBool => if |rs| == 0 then Ok(VInt(0)) else (match First(rs, KBool) case Fail(f) => Fail(f) case Ok(v) => Ok(VInt(if v.b then 1 else 0)))
    case FromDouble =>
      if |rs| == 0 then Ok(VInt(0))
      else (match First(rs, KDouble) case Fail(f) => Fail(f) case Ok(v) => if IsInt(Truncate(v.d)) then Ok(VInt(Truncate(v.d))) else Fail(OutsideModel))
    case FromInt => if |rs| == 0 then Ok(VInt(0)) else First(rs, KInt)
    case FromString =>
      if |rs| == 0 then Ok(VInt(0)) else IntOfText(rs)
    case _ => Ok(VNull)
  }

  /** `int.TryParse` of the first operand's text, 0 when it does not parse. */
  function IntOfText(rs: seq<Result<Val>>): Result<Val>
    requires |rs| > 0
  {
    match FirstText(rs)
    case Fail(f) => Fail(f)
    case Ok(s) => Ok(VInt(ParseInt(s).GetOr(0)))
  }

  /** What a bool node computes. */
  function BoolValue(m: CalcMethod, rs: seq<Result<Val>>): Result<Val>
  {
    match m
    case And => Fold(Bool, And, VBool(true), rs)
    case Or => Fold(Bool, Or, VBool(false), rs)
    case Xor | Nand | Nor | Xnor => if |rs| == 0 then Fail(ArgumentOutOfRange) else FoldFromFirst(Bool, m, rs)
    case Not => if |rs| == 0 then Fail(ArgumentOutOfRange) else (match First(rs, KBool) case Fail(f) => Fail(f) case Ok(v) => Ok(VBool(!v.b)))
    case FromBool => if |rs| == 0 then Fail(ArgumentOutOfRange) else First(rs, KBool)
    case FromDouble => if |rs| == 0 then Ok(VBool(false)) else (match First(rs, KDouble) case Fail(f) => Fail(f) case Ok(v) => Ok(VBool(v.d != 0.0)))
    case FromInt => if |rs| == 0 then Ok(VBool(false)) else (match First(rs, KInt) case Fail(f) => Fail(f) case Ok(v) => Ok(VBool(v.i != 0)))
    case FromString =>
      if |rs| == 0 then Ok(VBool(false))
      else (match FirstText(rs) case Fail(f) => Fail(f) case Ok(s) => Ok(VBool(ParseBool(s) == Some(true))))
    case _ => Ok(VNull)
  }

  /** What a string node computes. */
  function StringValue(m: CalcMethod, rs: seq<Result<Val>>): Result<Val>
  {
    match m
    case Concat => Fold(String, Concat, VStr(""), rs)
    case FromBool | FromDouble | FromInt | FromString =>
      if |rs| == 0 then Ok(VStr(""))
      else (match FirstText(rs) case Fail(f) => Fail(f) case Ok(s) => Ok(VStr(s)))
    case _ => Ok(VNull)
  }

  /** The operand results of plain values that never fail. */
  function Oks(vs: seq<Val>): (rs: seq<Result<Val>>)
    ensures |rs| == |vs|
  {
    if |vs| == 0 then [] else Oks(vs[..|vs| - 1]) + [Ok(vs[|vs| - 1])]
  }

  /** Every combination ValidMethod rejects computes null. */
  lemma InvalidMethodGivesNull(t: CalcType, m: CalcMethod, rs: seq<Result<Val>>)
    requires !ValidMethod(t, m)
    ensures CalcValue(t, m, rs) == Ok(VNull)
  {
  }

  /**
   * A valid combination that computes a value computes one of the node's
   * type (only neg over no operands, in the int branch, gives null).
   */
  lemma ValidMethodResultKind(t: CalcType, m: CalcMethod, rs: seq<Result<Val>>)
    requires ValidMethod(t, m) && !(m == Neg && |rs| == 0)
    requires forall j :: 0 <= j < |rs| ==> rs[j].Ok? ==> rs[j].value.VInt? ==> IsInt(rs[j].value.i)
    ensures CalcValue(t, m, rs).Ok? ==> KindOf(CalcValue(t, m, rs).value) == Some(ResultKind(t))
  {
    match t
    case Double =>
    case Int =>
      if m == Add { FoldKind(Int, m, VInt(0), rs); }
      else if m == Mult { FoldKind(Int, m, VInt(1), rs); }
      else if m in {Sub, Div, Pow} && |rs| > 0 {
        if rs[0].Ok? && Cast(KInt, rs[0].value).Ok? {
          FoldKind(Int, m, rs[0].value, rs[1..]);
        }
      }
    case Bool =>
      if m == And { FoldKind(Bool, m, VBool(true), rs); }
      else if m == Or { FoldKind(Bool, m, VBool(false), rs); }
      else if m in {Xor, Nand, Nor, Xnor} && |rs| > 0 {
        if rs[0].Ok? && Cast(KBool, rs[0].value).Ok? {
          FoldKind(Bool, m, rs[0].value, rs[1..]);
        }
      }
    case String =>
      if m == Concat { FoldKind(String, m, VStr(""), rs); }
  }

  /** The methods whose result is an accumulator loop over the operands. */
  predicate FoldMethod(t: CalcType, m: CalcMethod)
  {
    FromSeed(t, m) || FromFirstOperand(t, m)
  }

  /** Loops whose accumulator starts from a constant: int add and mult, bool and and or, concat. */
  predicate FromSeed(t: CalcType, m: CalcMethod)
  {
    || (t == Int && m in {Add, Mult})
    || (t == Bool && m in {And, Or})
    || (t == String && m == Concat)
  }

  /** The constant a FromSeed loop starts from. */
  function Seed(t: CalcType, m: CalcMethod): Val
  {
    if t == Int then VInt(if m == Mult then 1 else 0)
    else if t == Bool then VBool(m == And)
    else VStr("")
  }

  /** Loops whose accumulator starts from the first operand. */
  predicate FromFirstOperand(t: CalcType, m: CalcMethod)
  {
    || (t == Int && m in {Sub, Div, Pow})
    || (t == Bool && m in {Xor, Nand, Nor, Xnor})
  }

  /** Methods that read only the first operand. */
  predicate OnFirstOperand(t: CalcType, m: CalcMethod)
  {
    && t != Double && ValidMethod(t, m) && !FoldMethod(t, m)
  }

  /**
   * How many operands a node reads, by method: a FromSeed loop is the fold
   * of all of them from its seed; a FromFirstOperand loop folds the rest
   * from the first (an empty list giving 0 for ints and an index error for
   * bools); a method on the first operand depends on it alone; and any
   * other combination reads nothing.
   */
  lemma CalcShape(t: CalcType, m: CalcMethod, rs: seq<Result<Val>>)
    ensures FromSeed(t, m) ==> CalcValue(t, m, rs) == Fold(t, m, Seed(t, m), rs)
    ensures FromFirstOperand(t, m) && |rs| > 0 ==> CalcValue(t, m, rs) == FoldFromFirst(t, m, rs)
    ensures FromFirstOperand(t, m) && |rs| == 0 ==>
      CalcValue(t, m, rs) == if t == Int then Ok(VInt(0)) else Fail(ArgumentOutOfRange)
    ensures OnFirstOperand(t, m) && |rs| > 0 ==> CalcValue(t, m, rs) == CalcValue(t, m, rs[..1])
    ensures t != Double && !FoldMethod(t, m) && !OnFirstOperand(t, m) ==> CalcValue(t, m, rs) == Ok(VNull)
  {
    if t != Double {
      ShapedByType(t, m, rs);
    }
  }

  /** The five clauses of CalcShape, gathered so that each type can be proved apart. */
  predicate Shaped(t: CalcType, m: CalcMethod, rs: seq<Result<Val>>)
  {
    && (FromSeed(t, m) ==> CalcValue(t, m, rs) == Fold(t, m, Seed(t, m), rs))
    && (FromFirstOperand(t, m) && |rs| > 0 ==> CalcValue(t, m, rs) == FoldFromFirst(t, m, rs))
    && (FromFirstOperand(t, m) && |rs| == 0 ==>
         CalcValue(t, m, rs) == if t == Int then Ok(VInt(0)) else Fail(ArgumentOutOfRange))
    && (OnFirstOperand(t, m) && |rs| > 0 ==> CalcValue(t, m, rs) == CalcValue(t, m, rs[..1]))
    && (!FoldMethod(t, m) && !OnFirstOperand(t, m) ==> CalcValue(t, m, rs) == Ok(VNull))
  }

  lemma ShapedByType(t: CalcType, m: CalcMethod, rs: seq<Result<Val>>)
    requires t != Double
    ensures Shaped(t, m, rs)
  {
    if |rs| > 0 {
      assert rs[..1][0] == rs[0];
      assert FirstText(rs) == FirstText(rs[..1]);
    }
    match t
    case Int => ShapedInt(m, rs);
    case Bool => ShapedBool(m, rs);
    case String => ShapedString(m, rs);
  }

  lemma ShapedInt(m: CalcMethod, rs: seq<Result<Val>>)
    requires |rs| > 0 ==> FirstText(rs) == FirstText(rs[..1]) && rs[..1][0] == rs[0]
    ensures Shaped(Int, m, rs)
  {
  }

  lemma ShapedBool(m: CalcMethod, rs: seq<Result<Val>>)
    requires |rs| > 0 ==> FirstText(rs) == FirstText(rs[..1]) && rs[..1][0] == rs[0]
    ensures Shaped(Bool, m, rs)
  {
  }

  lemma ShapedString(m: CalcMethod, rs: seq<Result<Val>>)
    requires |rs| > 0 ==> FirstText(rs) == FirstText(rs[..1]) && rs[..1][0] == rs[0]
    ensures Shaped(String, m, rs)
  {
  }

  /** A method of the first operand fails when reading that operand fails. */
  lemma FirstOperandFails(t: CalcType, m: CalcMethod, f: Fault)
    requires OnFirstOperand(t, m)
    ensures CalcValue(t, m, [Fail(f)]) == Fail(f)
  {
  }

  /** A fold started from a value of the node's type keeps that type. */
  lemma {:induction false} FoldKind(t: CalcType, m: CalcMethod, init: Val, rs: seq<Result<Val>>)
    requires FoldMethod(t, m)
    requires KindOf(init) == Some(ResultKind(t)) && (init.VInt? ==> IsInt(init.i))
    requires forall j :: 0 <= j < |rs| ==> rs[j].Ok? ==> rs[j].value.VInt? ==> IsInt(rs[j].value.i)
    ensures var r := Fold(t, m, init, rs);
      r.Ok? ==> KindOf(r.value) == Some(ResultKind(t)) && (r.value.VInt? ==> IsInt(r.value.i))
    decreases |rs|
  {
    if |rs| > 0 {
      FoldKind(t, m, init, rs[..|rs| - 1]);
      NextKind(t, m, Fold(t, m, init, rs[..|rs| - 1]), rs[|rs| - 1]);
    }
  }

  /** One turn of a typed loop keeps the accumulator's type. */
  lemma NextKind(t: CalcType, m: CalcMethod, prev: Result<Val>, r: Result<Val>)
    requires FoldMethod(t, m)
    requires prev.Ok? ==> KindOf(prev.value) == Some(ResultKind(t)) && (prev.value.VInt? ==> IsInt(prev.value.i))
    requires r.Ok? ==> r.value.VInt? ==> IsInt(r.value.i)
    ensures var n := Next(t, m, prev, r);
      n.Ok? ==> KindOf(n.value) == Some(ResultKind(t)) && (n.value.VInt? ==> IsInt(n.value.i))
  {
  }

  /** Int add over plain ints is their sum, wrapped to 32 bits. */
  lemma {:induction false} AddIsWrappedSum(vs: seq<int>)
    requires forall j :: 0 <= j < |vs| ==> IsInt(vs[j])
    ensures CalcValue(Int, Add, Oks(IntVals(vs))) == Ok(VInt(Wrap(Sum(vs))))
    decreases |vs|
  {
    AddFold(vs);
  }

  lemma {:induction false} AddFold(vs: seq<int>)
    requires forall j :: 0 <= j < |vs| ==> IsInt(vs[j])
    ensures Fold(Int, Add, VInt(0), Oks(IntVals(vs))) == Ok(VInt(Wrap(Sum(vs))))
    decreases |vs|
  {
    if |vs| > 0 {
      var pre := vs[..|vs| - 1];
      var last := vs[|vs| - 1];
      AddFold(pre);
      AddFoldLast(vs);
      AddNext(Sum(pre), last);
      assert Sum(vs) == Sum(pre) + last;
    }
  }

  lemma AddFoldLast(vs: seq<int>)
    requires |vs| > 0
    ensures Fold(Int, Add, VInt(0), Oks(IntVals(vs)))
      == Next(Int, Add, Fold(Int, Add, VInt(0), Oks(IntVals(vs[..|vs| - 1]))), Ok(VInt(vs[|vs| - 1])))
  {
    var ws := IntVals(vs);
    assert ws[..|vs| - 1] == IntVals(vs[..|vs| - 1]) && ws[|vs| - 1] == VInt(vs[|vs| - 1]);
    FoldOksLast(Int, Add, VInt(0), ws);
  }

  /** One more int added to a wrapped sum gives the wrapped longer sum. */
  lemma AddNext(a: int, x: int)
    requires IsInt(x)
    ensures Next(Int, Add, Ok(VInt(Wrap(a))), Ok(VInt(x))) == Ok(VInt(Wrap(a + x)))
  {
    WrapAdd(a, x);
  }

  /** Wrapping an intermediate sum does not change the wrapped total. */
  lemma WrapAdd(s: int, x: int)
    ensures Wrap(Wrap(s) + x) == Wrap(s + x)
  {
    WrapMod(s);
    WrapCongruent(Wrap(s) + x, s + x);
  }

  lemma WrapCongruent(a: int, b: int)
    requires (a - b) % Modulus == 0
    ensures Wrap(a) == Wrap(b)
  {
    var k := (a - b) / Modulus;
    assert a - MinInt == (b - MinInt) + k * Modulus;
    ModShift(b - MinInt, k);
  }

  lemma ModShift(x: int, k: int)
    ensures (x + k * Modulus) % Modulus == x % Modulus
  {
  }

  function IntVals(vs: seq<int>): (r: seq<Val>)
    ensures |r| == |vs|
  {
    if |vs| == 0 then [] else IntVals(vs[..|vs| - 1]) + [VInt(vs[|vs| - 1])]
  }

  function Sum(vs: seq<int>): int
  {
    if |vs| == 0 then 0 else Sum(vs[..|vs| - 1]) + vs[|vs| - 1]
  }

  /** Bool and over plain bools is true exactly when every operand is true. */
  lemma {:induction false} AndMeaning(bs: seq<bool>)
    ensures Fold(Bool, And, VBool(true), Oks(BoolVals(bs))) == Ok(VBool(AllTrue(bs)))
    decreases |bs|
  {
    if |bs| > 0 {
      var pre := bs[..|bs| - 1];
      AndMeaning(pre);
      FoldOksLast(Bool, And, VBool(true), BoolVals(bs));
      assert BoolVals(bs)[..|bs| - 1] == BoolVals(pre);
      BoolNext(AllTrue(pre), bs[|bs| - 1]);
      AllSomeSnoc(bs);
    }
  }

  /** Bool or over plain bools is true exactly when some operand is true. */
  lemma {:induction false} OrMeaning(bs: seq<bool>)
    ensures Fold(Bool, Or, VBool(false), Oks(BoolVals(bs))) == Ok(VBool(SomeTrue(bs)))
    decreases |bs|
  {
    if |bs| > 0 {
      var pre := bs[..|bs| - 1];
      OrMeaning(pre);
      FoldOksLast(Bool, Or, VBool(false), BoolVals(bs));
      assert BoolVals(bs)[..|bs| - 1] == BoolVals(pre);
      BoolNext(SomeTrue(pre), bs[|bs| - 1]);
      AllSomeSnoc(bs);
    }
  }

  /** The last turn of a fold over values that were all read. */
  lemma FoldOksLast(t: CalcType, m: CalcMethod, init: Val, vs: seq<Val>)
    requires |vs| > 0
    ensures Fold(t, m, init, Oks(vs)) == Next(t, m, Fold(t, m, init, Oks(vs[..|vs| - 1])), Ok(vs[|vs| - 1]))
  {
    assert Oks(vs)[..|vs| - 1] == Oks(vs[..|vs| - 1]);
  }

  lemma BoolNext(a: bool, b: bool)
    ensures Next(Bool, And, Ok(VBool(a)), Ok(VBool(b))) == Ok(VBool(a && b))
    ensures Next(Bool, Or, Ok(VBool(a)), Ok(VBool(b))) == Ok(VBool(a || b))
  {
  }

  lemma AllSomeSnoc(bs: seq<bool>)
    requires |bs| > 0
    ensures AllTrue(bs) <==> AllTrue(bs[..|bs| - 1]) && bs[|bs| - 1]
    ensures SomeTrue(bs) <==> SomeTrue(bs[..|bs| - 1]) || bs[|bs| - 1]
  {
    var pre := bs[..|bs| - 1];
    if AllTrue(pre) && bs[|bs| - 1] {
      forall j | 0 <= j < |bs| ensures bs[j] {
        if j < |pre| { assert pre[j] == bs[j]; }
      }
    }
    if SomeTrue(bs) {
      var j :| 0 <= j < |bs| && bs[j];
      if j < |pre| { assert pre[j] == bs[j]; }
    }
    if SomeTrue(pre) {
      var j :| 0 <= j < |pre| && pre[j];
      assert bs[j] == pre[j];
    }
  }

  /** The and and or nodes over plain bools: all of them, and some of them. */
  lemma AndOrMeaning(bs: seq<bool>)
    ensures CalcValue(Bool, And, Oks(BoolVals(bs))) == Ok(VBool(AllTrue(bs)))
    ensures CalcValue(Bool, Or, Oks(BoolVals(bs))) == Ok(VBool(SomeTrue(bs)))
  {
    AndMeaning(bs);
    OrMeaning(bs);
  }

  predicate AllTrue(bs: seq<bool>) { forall j :: 0 <= j < |bs| ==> bs[j] }

  predicate SomeTrue(bs: seq<bool>) { exists j :: 0 <= j < |bs| && bs[j] }

  function BoolVals(bs: seq<bool>): (r: seq<Val>)
    ensures |r| == |bs|
  {
    if |bs| == 0 then [] else BoolVals(bs[..|bs| - 1]) + [VBool(bs[|bs| - 1])]
  }

  /** Concat of strings and nulls is the concatenation of the strings, nulls adding nothing. */
  lemma {:induction false} ConcatMeaning(vs: seq<Val>)
    requires forall j :: 0 <= j < |vs| ==> vs[j] == VNull || vs[j].VStr?
    ensures CalcValue(String, Concat, Oks(vs)) == Ok(VStr(Texts(vs)))
  {
    ConcatFold(vs);
  }

  lemma {:induction false} ConcatFold(vs: seq<Val>)
    requires forall j :: 0 <= j < |vs| ==> vs[j] == VNull || vs[j].VStr?
    ensures Fold(String, Concat, VStr(""), Oks(vs)) == Ok(VStr(Texts(vs)))
    decreases |vs|
  {
    if |vs| > 0 {
      var pre := vs[..|vs| - 1];
      ConcatFold(pre);
      FoldOksLast(String, Concat, VStr(""), vs);
      ConcatNext(Texts(pre), vs[|vs| - 1]);
    }
  }

  lemma ConcatNext(acc: string, x: Val)
    requires x == VNull || x.VStr?
    ensures Next(String, Concat, Ok(VStr(acc)), Ok(x)) == Ok(VStr(acc + (if x == VNull then "" else x.s)))
  {
    assert acc + "" == acc;
  }

  /** The strings of `vs` joined, nulls skipped. */
  function Texts(vs: seq<Val>): string
    requires forall j :: 0 <= j < |vs| ==> vs[j] == VNull || vs[j].VStr?
  {
    if |vs| == 0 then ""
    else Texts(vs[..|vs| - 1]) + (if vs[|vs| - 1] == VNull then "" else vs[|vs| - 1].s)
  }

  /** Nand stops reading once the accumulator is false: a failing later operand is never read. */
  lemma NandSkipsAfterFalse(rest: Fault)
    ensures CalcValue(Bool, Nand, [Ok(VBool(false)), Fail(rest)]) == Ok(VBool(true))
    ensures CalcValue(Bool, And, [Ok(VBool(false)), Fail(rest)]) == Fail(rest)
  {
    var rs: seq<Result<Val>> := [Ok(VBool(false)), Fail(rest)];
    assert rs[1..][..0] == [];
    assert Fold(Bool, Nand, VBool(false), rs[1..][..0]) == Ok(VBool(false));
    assert Fold(Bool, Nand, VBool(false), rs[1..]) == Ok(VBool(true));
    assert rs[..1][..0] == [];
    assert Fold(Bool, And, VBool(true), rs[..1]) == Ok(VBool(false));
    assert Fold(Bool, And, VBool(true), rs) == Fail(rest);
  }

  /** An int printed by a string node parses back through int fromString. */
  lemma IntTextRoundTrip(i: int)
    requires IsInt(i)
    ensures CalcValue(Int, FromString, [Ok(VInt(i))]) == Ok(VInt(i))
  {
    var rs := [Ok(VInt(i))];
    IntFromString(rs);
    assert FirstText(rs) == Ok(IntText(i));
    ParseIntText(i);
  }

  lemma IntFromString(rs: seq<Result<Val>>)
    requires |rs| > 0
    ensures CalcValue(Int, FromString, rs) == IntOfText(rs)
  {
    IntValueFromString(rs);
  }

  lemma IntValueFromString(rs: seq<Result<Val>>)
    requires |rs| > 0
    ensures IntValue(FromString, rs) == IntOfText(rs)
  {
  }
}
