/**
 * The timing of one animation effect: the curves that shape progress, the
 * start and end gates an effect passes on the runtime's clock, and the
 * value each typed effect writes into its target for a given progress.
 * Doubles are modelled as reals; the effect's cells enter as the values
 * they held when they were read.
 */
module Effects {
  import opened Wrappers
  import opened CsInt
  import opened Values
  import opened ScreenPositions

  /** `AnimationEffect.PerformMode`: linear progress mapped onto the mode's curve. */
  function PerformMode(value: real, mode: AnimationMode): real
  {
    if value <= 0.0 then 0.0
    else if value >= 1.0 then 1.0
    else match mode
      case SwingIn => value * value
      case SwingOut => value * (2.0 - value)
      case Swing => if value < 0.5 then 2.0 * value * value else 2.0 * value * (2.0 - value) - 1.0
      case Focus => var x := 2.0 * value - 1.0; 0.5 * x * x * x + 0.5
      case Jump => if value < 0.5 then 0.0 else 1.0
      case Linear => value
  }

  /** Every curve is 0 up to the start, 1 from the end on, and stays within 0..1. */
  lemma CurveInUnit(value: real, mode: AnimationMode)
    ensures value <= 0.0 ==> PerformMode(value, mode) == 0.0
    ensures value >= 1.0 ==> PerformMode(value, mode) == 1.0
    ensures 0.0 <= PerformMode(value, mode) <= 1.0
  {
    if 0.0 < value < 1.0 {
      var v := value;
      match mode
      case SwingIn =>
        SquareBelow(v, 1.0);
      case SwingOut =>
        MulNonneg(v, 2.0 - v);
        SqNonneg(1.0 - v);
        assert 1.0 - v * (2.0 - v) == (1.0 - v) * (1.0 - v);
      case Swing =>
        if v < 0.5 {
          SquareBelow(v, 0.5);
        } else {
          SqNonneg(1.0 - v);
          MulNonneg(v - 0.5, 1.5 - v);
          assert 1.0 - (2.0 * v * (2.0 - v) - 1.0) == 2.0 * ((1.0 - v) * (1.0 - v));
          assert 2.0 * v * (2.0 - v) - 1.0 - 0.5 == 2.0 * ((v - 0.5) * (1.5 - v));
        }
      case Focus =>
        var x := 2.0 * v - 1.0;
        CubeBelowOne(x);
        assert PerformMode(v, mode) == 0.5 * x * x * x + 0.5;
        assert 0.5 * x * x * x == 0.5 * (x * x * x);
      case Jump =>
      case Linear =>
    }
  }

  /** The products and powers the curves are made of, one step each. */
  lemma MulNonneg(x: real, y: real)
    requires 0.0 <= x && 0.0 <= y
    ensures 0.0 <= x * y
  {
  }

  lemma MulPos(x: real, y: real)
    requires 0.0 < x && 0.0 < y
    ensures 0.0 < x * y
  {
  }

  lemma MulLe(a: real, b: real, c: real)
    requires a <= b && 0.0 <= c
    ensures a * c <= b * c
  {
    MulNonneg(b - a, c);
    assert b * c - a * c == (b - a) * c;
  }

  lemma SqNonneg(x: real)
    ensures 0.0 <= x * x
  {
    if x < 0.0 {
      MulNonneg(-x, -x);
      assert x * x == (-x) * (-x);
    } else {
      MulNonneg(x, x);
    }
  }

  /** Squaring a value in 0..k keeps it at most k times the value. */
  lemma SquareBelow(x: real, k: real)
    requires 0.0 <= x <= k
    ensures 0.0 <= x * x <= k * x
  {
    MulNonneg(x, x);
    MulLe(x, k, x);
  }

  /** A cube of a value strictly between -1 and 1 stays strictly between them. */
  lemma CubeBelowOne(x: real)
    requires -1.0 < x < 1.0
    ensures -1.0 < x * x * x < 1.0
  {
    if x >= 0.0 {
      SquareBelow(x, 1.0);
      MulLe(x * x, 1.0, x);
      MulNonneg(x * x, x);
    } else {
      SquareBelow(-x, 1.0);
      assert (-x) * (-x) == x * x;
      MulLe(x * x, 1.0, -x);
      MulNonneg(x * x, -x);
      assert x * x * x == -(x * x * (-x));
    }
  }

  /** No curve ever runs backwards. */
  lemma CurveMonotone(a: real, b: real, mode: AnimationMode)
    requires a <= b
    ensures PerformMode(a, mode) <= PerformMode(b, mode)
  {
    if 0.0 < a && b < 1.0 {
      match mode
      case SwingIn =>
        SquareMonotone(a, b);
      case SwingOut =>
        SwingOutMonotone(a, b);
      case Swing =>
        if b < 0.5 {
          SquareMonotone(a, b);
        } else if a >= 0.5 {
          SwingOutMonotone(a, b);
        } else {
          SquareBelow(a, 0.5);
          SwingOutAboveHalf(b);
        }
      case Focus =>
        var x, y := 2.0 * a - 1.0, 2.0 * b - 1.0;
        CubeMonotone(x, y);
        assert PerformMode(a, mode) == 0.5 * (x * x * x) + 0.5;
        assert PerformMode(b, mode) == 0.5 * (y * y * y) + 0.5;
      case Jump =>
      case Linear =>
    } else {
      CurveInUnit(a, mode);
      CurveInUnit(b, mode);
    }
  }

  lemma SquareMonotone(a: real, b: real)
    requires 0.0 <= a <= b
    ensures a * a <= b * b
  {
    MulNonneg(b - a, b + a);
    assert b * b - a * a == (b - a) * (b + a);
  }

  /** The rising half-parabola x(2 - x) climbs up to x = 1. */
  lemma SwingOutMonotone(a: real, b: real)
    requires a <= b <= 1.0 && a <= 1.0
    ensures a * (2.0 - a) <= b * (2.0 - b)
  {
    MulNonneg(b - a, 2.0 - a - b);
    assert b * (2.0 - b) - a * (2.0 - a) == (b - a) * (2.0 - a - b);
  }

  /** The second half of the Swing curve starts at one half. */
  lemma SwingOutAboveHalf(b: real)
    requires 0.5 <= b <= 1.5
    ensures 2.0 * b * (2.0 - b) - 1.0 >= 0.5
  {
    MulNonneg(b - 0.5, 1.5 - b);
    assert 2.0 * b * (2.0 - b) - 1.0 - 0.5 == 2.0 * ((b - 0.5) * (1.5 - b));
  }

  lemma CubeMonotone(x: real, y: real)
    requires x <= y
    ensures x * x * x <= y * y * y
  {
    var q := x * x + x * y + y * y;
    SqNonneg(x + y / 2.0);
    SqNonneg(y);
    assert q == (x + y / 2.0) * (x + y / 2.0) + 3.0 * (y * y) / 4.0;
    MulNonneg(y - x, q);
    assert y * y * y - x * x * x == (y - x) * q;
  }

  /** A quotient by a positive divisor compares with 0 and 1 as the dividend compares with 0 and the divisor. */
  lemma DivUnit(e: real, d: real)
    requires 0.0 < d
    ensures 0.0 <= e ==> 0.0 <= e / d
    ensures e < d ==> e / d < 1.0
    ensures d <= e ==> 1.0 <= e / d
  {
    var q := e / d;
    assert q * d == e;
    if q < 0.0 { MulLe(q, 0.0, d); }
    if q >= 1.0 { MulLe(1.0, q, d); }
    if q < 1.0 { MulLe(q, 1.0, d); }
  }

  /** A timing cell as read: whether it exists, and the value it holds. */
  datatype Reading<T> = Reading(present: bool, value: T)

  /** The effect's timing cells and its Enable flag at the moment of a read. */
  datatype Timing = Timing(timeStart: Reading<real>, timeOffset: Reading<real>,
                           timeFinish: Reading<real>, timeDuration: Reading<real>, enable: bool)

  /** An `AnimationRuntimeData` record: the clock, the end of the previous effect, the start, the running flag. */
  datatype RunState = RunState(currentTime: real, lastTileTime: real, startTime: real, canAnimate: bool)

  /**
   * `CanStartAnimation`: an absolute start time, else an offset after the
   * previous effect's end, else an immediate start.
   */
  function CanStart(t: Timing, s: RunState): RunState
  {
    if t.timeStart.present then
      if t.timeStart.value <= s.currentTime then s.(canAnimate := true, startTime := t.timeStart.value)
      else s.(canAnimate := false)
    else if t.timeOffset.present then
      if t.timeOffset.value <= s.currentTime - s.lastTileTime then
        s.(canAnimate := true, startTime := s.lastTileTime + t.timeOffset.value)
      else s.(canAnimate := false)
    else s.(canAnimate := true, startTime := s.currentTime)
  }

  /** Whether the start gate runs the typed `StartAnimate`: the effect starts and is enabled. */
  predicate Fires(t: Timing, s: RunState)
  {
    CanStart(t, s).canAnimate && t.enable
  }

  /** An effect never starts in the future, and the start gate touches no clock. */
  lemma StartNotLate(t: Timing, s: RunState)
    ensures var r := CanStart(t, s);
      && (r.canAnimate ==> r.startTime <= s.currentTime)
      && r.currentTime == s.currentTime && r.lastTileTime == s.lastTileTime
      && (!r.canAnimate ==> r.startTime == s.startTime)
  {
  }

  /** The gates are tried in order: an existing TimeStart decides alone; with neither gate the effect starts now. */
  lemma StartGateOrder(t: Timing, s: RunState, offset: Reading<real>)
    ensures t.timeStart.present ==> CanStart(t, s) == CanStart(t.(timeOffset := offset), s)
    ensures t.timeStart.present ==> (CanStart(t, s).canAnimate <==> t.timeStart.value <= s.currentTime)
    ensures !t.timeStart.present && !t.timeOffset.present ==>
      CanStart(t, s) == s.(canAnimate := true, startTime := s.currentTime)
  {
  }

  /**
   * The length an effect runs for, as the source computes it: TimeFinish
   * minus TimeStart's value (even when TimeStart does not exist and the
   * effect started by its offset or at once), else TimeDuration, else 0.
   */
  function LengthAsWritten(t: Timing): real
  {
    if t.timeFinish.present then t.timeFinish.value - t.timeStart.value
    else if t.timeDuration.present then t.timeDuration.value
    else 0.0
  }

  /** The progress the source hands to the typed effect: elapsed time over that length, or 1 for a zero length. */
  function ProgressAsWritten(t: Timing, s: RunState): real
  {
    var final := LengthAsWritten(t);
    if final == 0.0 then 1.0 else (s.currentTime - s.startTime) / final
  }

  /**
   * An effect started by its offset 1 after the previous one, with
   * TimeFinish 2 and no TimeStart, is stopped at time 2 having shown only
   * half of its change.
   */
  lemma FinishStopsHalfwayAsWritten()
    ensures var t := Timing(Reading(false, 0.0), Reading(true, 1.0), Reading(true, 2.0), Reading(false, 0.0), true);
      var s := CanStart(t, RunState(2.0, 0.0, 0.0, false));
      && s.canAnimate && s.startTime == 1.0
      && !EndGate(t, s).canAnimate
      && PerformMode(ProgressAsWritten(t, s), Linear) == 0.5
  {
  }

  /** The length an effect runs for: from its actual start to TimeFinish, else TimeDuration, else 0. */
  function Length(t: Timing, s: RunState): real
  {
    if t.timeFinish.present then t.timeFinish.value - s.startTime
    else if t.timeDuration.present then t.timeDuration.value
    else 0.0
  }

  /** The end gate of `Animate`: stops the effect and records its end instant once it is due. */
  function EndGate(t: Timing, s: RunState): RunState
  {
    if t.timeFinish.present then
      if t.timeFinish.value <= s.currentTime then s.(lastTileTime := t.timeFinish.value, canAnimate := false) else s
    else if t.timeDuration.present then
      if t.timeDuration.value <= s.currentTime - s.startTime then
        s.(lastTileTime := s.startTime + t.timeDuration.value, canAnimate := false)
      else s
    else s.(lastTileTime := s.startTime, canAnimate := false)
  }

  /** The progress handed to the typed effect: elapsed time over the length, or 1 for a zero length. */
  function Progress(t: Timing, s: RunState): real
  {
    var final := Length(t, s);
    if final == 0.0 then 1.0 else (s.currentTime - s.startTime) / final
  }

  /** The two lengths agree whenever the effect was started by its TimeStart, or runs without a TimeFinish. */
  lemma ProgressAgrees(t: Timing, s: RunState)
    requires !t.timeFinish.present || (t.timeStart.present && s.startTime == t.timeStart.value)
    ensures Progress(t, s) == ProgressAsWritten(t, s)
  {
  }

  /** An effect that stops records an end instant that is not in the future. */
  lemma EndNotInFuture(t: Timing, s: RunState)
    requires s.startTime <= s.currentTime
    ensures var r := EndGate(t, s);
      && (!r.canAnimate ==> r.lastTileTime <= s.currentTime || r == s)
      && r.currentTime == s.currentTime && r.startTime == s.startTime
  {
  }

  /** With a positive duration, the effect runs with progress below 1 until the duration has passed, then stops at progress 1 or more. */
  lemma DurationProgress(t: Timing, s: RunState, mode: AnimationMode)
    requires !t.timeFinish.present && t.timeDuration.present && t.timeDuration.value > 0.0
    requires s.startTime <= s.currentTime
    ensures var r := EndGate(t, s); var p := Progress(t, s);
      && 0.0 <= p
      && (s.currentTime - s.startTime < t.timeDuration.value ==> r.canAnimate == s.canAnimate && p < 1.0)
      && (s.currentTime - s.startTime >= t.timeDuration.value ==>
            !r.canAnimate && r.lastTileTime == s.startTime + t.timeDuration.value && PerformMode(p, mode) == 1.0)
  {
    var d := t.timeDuration.value;
    var e := s.currentTime - s.startTime;
    assert Progress(t, s) == e / d;
    DivUnit(e, d);
    CurveInUnit(e / d, mode);
  }

  /**
   * However it started, an effect with a later TimeFinish runs with
   * progress below 1 until TimeFinish and stops there at progress 1 or more.
   */
  lemma FinishProgress(t: Timing, s: RunState, mode: AnimationMode)
    requires t.timeFinish.present && s.startTime < t.timeFinish.value && s.startTime <= s.currentTime
    ensures var r := EndGate(t, s); var p := Progress(t, s);
      && 0.0 <= p
      && (s.currentTime < t.timeFinish.value ==> r == s && p < 1.0)
      && (t.timeFinish.value <= s.currentTime ==>
            !r.canAnimate && r.lastTileTime == t.timeFinish.value && PerformMode(p, mode) == 1.0)
  {
    var f := t.timeFinish.value - s.startTime;
    var e := s.currentTime - s.startTime;
    assert Progress(t, s) == e / f;
    DivUnit(e, f);
    CurveInUnit(e / f, mode);
  }

  /**
   * `AnimationRuntimeData`: the record the runtime hands to an effect's
   * gates, which update it in place.
   */
  class RunData {
    var currentTime: real
    var lastTileTime: real
    var startTime: real
    var canAnimate: bool

    function State(): RunState
      reads this
    {
      RunState(currentTime, lastTileTime, startTime, canAnimate)
    }

    /** A record at clock `now`, with every other field at its default. */
    constructor (now: real)
      ensures State() == RunState(now, 0.0, 0.0, false)
    {
      currentTime := now;
      lastTileTime := 0.0;
      startTime := 0.0;
      canAnimate := false;
    }

    /** `AnimationEffect.CanStartAnimation`; `fired` says whether the typed `StartAnimate` ran. */
    method CanStartAnimation(t: Timing) returns (fired: bool)
      modifies this
      ensures State() == CanStart(t, old(State()))
      ensures fired == Fires(t, old(State()))
    {
      if t.timeStart.present {
        if t.timeStart.value <= currentTime {
          canAnimate := true;
          startTime := t.timeStart.value;
        } else {
          canAnimate := false;
        }
      } else if t.timeOffset.present {
        if t.timeOffset.value <= currentTime - lastTileTime {
          canAnimate := true;
          startTime := lastTileTime + t.timeOffset.value;
        } else {
          canAnimate := false;
        }
      } else {
        canAnimate := true;
        startTime := currentTime;
      }
      fired := canAnimate && t.enable;
    }

    /** `AnimationEffect.Animate(data)`; `progress` is what the typed `Animate` receives, if the effect is enabled. */
    method Animate(t: Timing) returns (progress: Option<real>)
      modifies this
      ensures State() == EndGate(t, old(State()))
      ensures progress == if t.enable then Some(Progress(t, old(State()))) else None
    {
      var time := currentTime - startTime;
      var final: real;
      if t.timeFinish.present {
        if t.timeFinish.value <= currentTime {
          lastTileTime := t.timeFinish.value;
          canAnimate := false;
        }
        final := t.timeFinish.value - startTime;
      } else if t.timeDuration.present {
        if t.timeDuration.value <= currentTime - startTime {
          lastTileTime := startTime + t.timeDuration.value;
          canAnimate := false;
        }
        final := t.timeDuration.value;
      } else {
        lastTileTime := startTime;
        canAnimate := false;
        final := 0.0;
      }
      progress := if !t.enable then None else if final == 0.0 then Some(1.0) else Some(time / final);
    }
  }

  /** `StartAnimate` of the typed effects: the start value is ValueStart if it exists, else the target's value. */
  function StartValue<T>(valueStart: Reading<T>, target: T): (v: T)
    ensures valueStart.present ==> v == valueStart.value
    ensures !valueStart.present ==> v == target
  {
    if valueStart.present then valueStart.value else target
  }

  /** The finish of a numeric effect: ValueFinish, else the start plus ValueChange, else the start. */
  function NumFinish(start: real, change: Reading<real>, finish: Reading<real>): real
  {
    if finish.present then finish.value else if change.present then start + change.value else start
  }

  /** The point a fraction `c` of the way from `a` to `b`. */
  function Lerp(a: real, b: real, c: real): real
  {
    a + (b - a) * c
  }

  /** For a fraction within 0..1 the point lies between the two ends, and the ends are reached at 0 and 1. */
  lemma LerpBetween(a: real, b: real, c: real)
    requires 0.0 <= c <= 1.0
    ensures Min(a, b) <= Lerp(a, b, c) <= Max(a, b)
    ensures c == 0.0 ==> Lerp(a, b, c) == a
    ensures c == 1.0 ==> Lerp(a, b, c) == b
  {
    if a <= b {
      MulLe(c, 1.0, b - a);
      MulNonneg(c, b - a);
    } else {
      MulLe(c, 1.0, a - b);
      MulNonneg(c, a - b);
      assert (b - a) * c == -((a - b) * c);
    }
  }

  function Min(a: real, b: real): real { if a <= b then a else b }
  function Max(a: real, b: real): real { if a <= b then b else a }

  /** `ADouble.Animate`: the value written into the target. */
  function DoubleStep(start: real, change: Reading<real>, finish: Reading<real>, mode: AnimationMode, progress: real): real
  {
    Lerp(start, NumFinish(start, change, finish), PerformMode(progress, mode))
  }

  /** A double effect moves between its start and its finish, reaching the finish at the end. */
  lemma DoubleStepBetween(start: real, change: Reading<real>, finish: Reading<real>, mode: AnimationMode, progress: real)
    ensures var f := NumFinish(start, change, finish); var v := DoubleStep(start, change, finish, mode, progress);
      && Min(start, f) <= v <= Max(start, f)
      && (progress >= 1.0 ==> v == f)
      && (progress <= 0.0 ==> v == start)
  {
    CurveInUnit(progress, mode);
    LerpBetween(start, NumFinish(start, change, finish), PerformMode(progress, mode));
  }

  /** `(int)x` on a double: truncation toward zero; outside the int range the result is unspecified. */
  function TruncToInt(x: real): (r: Result<int>)
  {
    var t := if x >= 0.0 then x.Floor else -((-x).Floor);
    if IsInt(t) then Ok(t) else Fail(OutsideModel)
  }

  /** Truncating a real between two ints gives an int between them; an int truncates to itself. */
  lemma TruncBetween(x: real, lo: int, hi: int)
    requires IsInt(lo) && IsInt(hi) && lo as real <= x <= hi as real
    ensures TruncToInt(x).Ok? && lo <= TruncToInt(x).value <= hi
    ensures x == hi as real ==> TruncToInt(x) == Ok(hi)
  {
    if x >= 0.0 {
      assert x.Floor <= hi;
    } else {
      assert (-x).Floor <= -lo;
    }
  }

  /**
   * `AInt.Animate`: the start value is kept as a double, the finish is
   * ValueFinish, else the start plus ValueChange, else the start; the
   * interpolated double is truncated to int.
   */
  function IntStep(start: int, change: Reading<int>, finish: Reading<int>, mode: AnimationMode, progress: real): Result<int>
  {
    var s := start as real;
    var f := if finish.present then finish.value as real else if change.present then s + change.value as real else s;
    TruncToInt(Lerp(s, f, PerformMode(progress, mode)))
  }

  /** With a ValueFinish, an int effect always yields an int between start and finish, and the finish itself at the end. */
  lemma IntStepBetween(start: int, change: Reading<int>, finish: Reading<int>, mode: AnimationMode, progress: real)
    requires IsInt(start) && finish.present && IsInt(finish.value)
    ensures var r := IntStep(start, change, finish, mode, progress);
      && r.Ok? && (start <= finish.value ==> start <= r.value <= finish.value)
      && (finish.value <= start ==> finish.value <= r.value <= start)
      && (progress >= 1.0 ==> r.value == finish.value)
  {
    var s, f := start as real, finish.value as real;
    var c := PerformMode(progress, mode);
    CurveInUnit(progress, mode);
    LerpBetween(s, f, c);
    if start <= finish.value {
      TruncBetween(Lerp(s, f, c), start, finish.value);
    } else {
      TruncBetween(Lerp(s, f, c), finish.value, start);
      if progress >= 1.0 {
        assert Lerp(s, f, c) == f;
        assert f.Floor == finish.value;
        if f < 0.0 { assert (-f).Floor == -finish.value; }
      }
    }
  }

  /** `ABool.Animate`: the finish (ValueFinish, else the start) once the curve reaches one half. */
  function BoolStep(start: bool, finish: Reading<bool>, mode: AnimationMode, progress: real): bool
  {
    var f := if finish.present then finish.value else start;
    if PerformMode(progress, mode) >= 0.5 then f else start
  }

  /** A bool effect shows its start before it begins and its finish once it ends. */
  lemma BoolStepEnds(start: bool, finish: Reading<bool>, mode: AnimationMode, progress: real)
    ensures progress <= 0.0 ==> BoolStep(start, finish, mode, progress) == start
    ensures progress >= 1.0 ==> BoolStep(start, finish, mode, progress) == (if finish.present then finish.value else start)
  {
    CurveInUnit(progress, mode);
  }

  /** One colour channel: the interpolation clamped to 0..255, then truncated. */
  function ChannelStep(s: int, f: int, c: real): (r: int)
  {
    var x := s as real + (f - s) as real * c;
    var y := if x > 255.0 then 255.0 else if x < 0.0 then 0.0 else x;
    y.Floor
  }

  /** `AColor.Animate`: each channel interpolated between the start and the finish colour. */
  function ColorStep(start: Color, finish: Reading<Color>, mode: AnimationMode, progress: real): Color
  {
    var f := if finish.present then finish.value else start;
    var c := PerformMode(progress, mode);
    Color(ChannelStep(start.a, f.a, c), ChannelStep(start.r, f.r, c), ChannelStep(start.g, f.g, c), ChannelStep(start.b, f.b, c))
  }

  lemma ChannelInRange(s: int, f: int, c: real)
    ensures 0 <= ChannelStep(s, f, c) <= 255
    ensures c == 1.0 && 0 <= f <= 255 ==> ChannelStep(s, f, c) == f
    ensures c == 0.0 && 0 <= s <= 255 ==> ChannelStep(s, f, c) == s
  {
  }

  /** A colour effect always writes a valid colour, and the finish colour at the end. */
  lemma ColorStepValid(start: Color, finish: Reading<Color>, mode: AnimationMode, progress: real)
    ensures ColorStep(start, finish, mode, progress).Valid()
    ensures progress >= 1.0 && start.Valid() && (finish.present ==> finish.value.Valid()) ==>
      ColorStep(start, finish, mode, progress) == (if finish.present then finish.value else start)
    ensures progress <= 0.0 && start.Valid() ==> ColorStep(start, finish, mode, progress) == start
  {
    var f := if finish.present then finish.value else start;
    var c := PerformMode(progress, mode);
    CurveInUnit(progress, mode);
    ChannelInRange(start.a, f.a, c);
    ChannelInRange(start.r, f.r, c);
    ChannelInRange(start.g, f.g, c);
    ChannelInRange(start.b, f.b, c);
  }

  /**
   * `AScreenPos.Animate`: the finish is ValueFinish, else the start moved
   * by ValueChange when their position types agree, else the start; a
   * finish of another position type is written at once.
   */
  function PosStep(start: ScreenPos, change: Reading<ScreenPos>, finish: Reading<ScreenPos>, mode: AnimationMode, progress: real): ScreenPos
  {
    var f :=
      if finish.present then finish.value
      else if change.present && change.value.posType == start.posType then ScreenPos(start.value + change.value.value, start.posType)
      else start;
    if f.posType != start.posType then f
    else ScreenPos(Lerp(start.value, f.value, PerformMode(progress, mode)), start.posType)
  }

  /** A position effect never mixes position types: it keeps the start's type or jumps straight to the finish. */
  lemma PosStepType(start: ScreenPos, change: Reading<ScreenPos>, finish: Reading<ScreenPos>, mode: AnimationMode, progress: real)
    ensures var p := PosStep(start, change, finish, mode, progress);
      && (!finish.present ==> p.posType == start.posType)
      && (finish.present && finish.value.posType != start.posType ==> p == finish.value)
      && (finish.present && progress >= 1.0 ==> p == finish.value)
  {
    CurveInUnit(progress, mode);
  }

  /** The character at `i` of `s`, or a space past its end. */
  function Pad(s: string, i: nat): char
  {
    if i < |s| then s[i] else ' '
  }

  function MaxLen(a: string, b: string): nat
  {
    if |a| <= |b| then |b| else |a|
  }

  /** `(int)(t * len)`: how many leading characters have switched. */
  function Cut(t: real, len: nat): nat
    requires 0.0 <= t
  {
    MulNonneg(t, len as real);
    (t * len as real).Floor
  }

  lemma CutBelow(t: real, len: nat)
    requires 0.0 <= t < 1.0
    ensures Cut(t, len) <= len && (len > 0 ==> Cut(t, len) < len)
  {
    MulLe(t, 1.0, len as real);
    if len > 0 {
      MulPos(1.0 - t, len as real);
      assert len as real - t * len as real == (1.0 - t) * len as real;
    }
    assert Cut(t, len) as real <= t * len as real;
  }

  /**
   * The text an `AString` effect shows after `pos` characters have switched:
   * as long as the longer text, the switched positions from the finish and
   * the rest from the start (the other way round with Flip), padded with
   * spaces.
   */
  function Blend(start: string, finish: string, flip: bool, pos: nat): (r: string)
  {
    seq(MaxLen(start, finish), i requires 0 <= i => if (i < pos) != flip then Pad(finish, i) else Pad(start, i))
  }

  /** A fully switched blend is the finish padded out; an unswitched one is the start padded out. */
  lemma BlendEnds(start: string, finish: string, flip: bool)
    ensures var n := MaxLen(start, finish);
      && |Blend(start, finish, flip, n)| == n
      && (forall i :: 0 <= i < n ==> Blend(start, finish, false, n)[i] == Pad(finish, i))
      && (forall i :: 0 <= i < n ==> Blend(start, finish, false, 0)[i] == Pad(start, i))
      && (forall i :: 0 <= i < |finish| ==> Blend(start, finish, false, n)[i] == finish[i])
  {
  }

  /**
   * `AString.Animate` for a curve value strictly between 0 and 1: the two
   * index loops that fill the StringBuilder.
   */
  method BlendText(start: string, finish: string, flip: bool, t: real) returns (s: string)
    requires 0.0 < t < 1.0
    ensures s == Blend(start, finish, flip, Cut(t, MaxLen(start, finish)))
  {
    var len := MaxLen(start, finish);
    var pos := Cut(t, len);
    CutBelow(t, len);
    ghost var b := Blend(start, finish, flip, pos);
    s := [];
    var i := 0;
    while i < pos
      invariant 0 <= i <= pos && |s| == i
      invariant forall j :: 0 <= j < i ==> s[j] == b[j]
    {
      s := s + [if flip then Pad(start, i) else Pad(finish, i)];
      i := i + 1;
    }
    while i < len
      invariant pos <= i <= len && |s| == i
      invariant forall j :: 0 <= j < i ==> s[j] == b[j]
    {
      s := s + [if flip then Pad(finish, i) else Pad(start, i)];
      i := i + 1;
    }
  }

  /**
   * `AString.Animate`: the finish (ValueFinish, else the start) once the
   * curve reaches 1, the start while it is 0, the blend in between; a null
   * text there throws.
   */
  method AnimateString(start: Option<string>, finish: Reading<Option<string>>, flip: bool, mode: AnimationMode, progress: real)
    returns (r: Result<Option<string>>)
    ensures var f := if finish.present then finish.value else start; var c := PerformMode(progress, mode);
      && (c >= 1.0 ==> r == Ok(f))
      && (c <= 0.0 ==> r == Ok(start))
      && (0.0 < c < 1.0 ==> (r.Ok? <==> start.Some? && f.Some?))
      && (0.0 < c < 1.0 && start.Some? && f.Some? ==>
            r == Ok(Some(Blend(start.value, f.value, flip, Cut(c, MaxLen(start.value, f.value))))))
  {
    var f := if finish.present then finish.value else start;
    var c := PerformMode(progress, mode);
    if c >= 1.0 {
      r := Ok(f);
    } else if c <= 0.0 {
      r := Ok(start);
    } else if start.None? || f.None? {
      r := Fail(NullReference);
    } else {
      var s := BlendText(start.value, f.value, flip, c);
      r := Ok(Some(s));
    }
  }

  /** Between its ends a string effect shows as many characters as the longer text, the first ⌊c·len⌋ switched. */
  lemma AnimateStringShape(start: string, finish: string, flip: bool, c: real)
    requires 0.0 < c < 1.0
    ensures var n := MaxLen(start, finish); var pos := Cut(c, n); var b := Blend(start, finish, flip, pos);
      && |b| == n && pos <= n
      && (forall i :: 0 <= i < pos ==> b[i] == (if flip then Pad(start, i) else Pad(finish, i)))
      && (forall i :: pos <= i < n ==> b[i] == (if flip then Pad(finish, i) else Pad(start, i)))
  {
    CutBelow(c, MaxLen(start, finish));
  }
}
