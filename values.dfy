/**
 * The dynamically typed values that flow through value cells: what a
 * boxed `object` read from a cell can be, the static type a typed cell
 * declares, the C# unboxing cast between the two, and the text a value
 * prints as.
 */
module Values {
  import opened Wrappers
  import opened CsInt
  import opened Text
  import opened ScreenPositions
  import opened Repeats

  datatype AnimationMode = Linear | SwingIn | SwingOut | Swing | Focus | Jump

  datatype ClickButton = Left | Right | Middle | Unknown

  /** A colour as its four channels; a valid colour has each channel in 0..255. */
  datatype Color = Color(a: int, r: int, g: int, b: int)
  {
    predicate Valid() { 0 <= a <= 255 && 0 <= r <= 255 && 0 <= g <= 255 && 0 <= b <= 255 }
  }

  const Black: Color := Color(255, 0, 0, 0)

  /**
   * A value as read from a cell. Statuses are reference objects: a status
   * value carries the identity of the status object and its root-to-leaf
   * path of names. `VOther` covers the remaining enumerations and structs
   * (Align, Valign, Keys, char) by type name and ordinal.
   */
  datatype Val =
    | VNull
    | VBool(b: bool)
    | VInt(i: int)
    | VDouble(d: real)
    | VStr(s: string)
    | VPos(pos: ScreenPos)
    | VColor(color: Color)
    | VStatus(id: nat, path: seq<string>)
    | VMode(mode: AnimationMode)
    | VRepeat(repeat: RepeatMode)
    | VButton(button: ClickButton)
    | VOther(typeName: string, ordinal: int)

  /** The static type of a cell; `KObject` is the untyped cell of math nodes. */
  datatype Kind =
    | KBool
    | KInt
    | KDouble
    | KString
    | KPos
    | KColor
    | KStatus
    | KMode
    | KRepeat
    | KButton
    | KOther(typeName: string)
    | KObject

  /** Reference types admit null; value types do not. */
  predicate IsRefKind(k: Kind)
  {
    k == KString || k == KStatus || k == KObject
  }

  /** The runtime type of a non-null value. */
  function KindOf(v: Val): (k: Option<Kind>)
    ensures k.None? <==> v == VNull
    ensures k != Some(KObject)
  {
    match v
    case VNull => None
    case VBool(_) => Some(KBool)
    case VInt(_) => Some(KInt)
    case VDouble(_) => Some(KDouble)
    case VStr(_) => Some(KString)
    case VPos(_) => Some(KPos)
    case VColor(_) => Some(KColor)
    case VStatus(_, _) => Some(KStatus)
    case VMode(_) => Some(KMode)
    case VRepeat(_) => Some(KRepeat)
    case VButton(_) => Some(KButton)
    case VOther(n, _) => Some(KOther(n))
  }

  /**
   * The cast `(T)obj` from a boxed value to the type `k`: null into a value
   * type throws NullReferenceException, a value of another type throws
   * InvalidCastException.
   */
  function Cast(k: Kind, v: Val): (r: Result<Val>)
    ensures r.Ok? ==> r.value == v
    ensures r.Ok? <==> Fits(k, v)
    ensures r == Fail(NullReference) <==> v == VNull && !IsRefKind(k)
  {
    if v == VNull then (if IsRefKind(k) then Ok(VNull) else Fail(NullReference))
    else if k == KObject || KindOf(v) == Some(k) then Ok(v)
    else Fail(InvalidCast)
  }

  /** A value a variable of type `k` can hold. */
  predicate Fits(k: Kind, v: Val)
  {
    if v == VNull then IsRefKind(k) else k == KObject || KindOf(v) == Some(k)
  }

  /** `default(T)`: what a fresh cell of type `k` holds. */
  function Default(k: Kind): (v: Val)
    ensures Fits(k, v)
    ensures v == VNull <==> IsRefKind(k)
  {
    match k
    case KBool => VBool(false)
    case KInt => VInt(0)
    case KDouble => VDouble(0.0)
    case KString => VNull
    case KPos => VPos(ScreenPositions.Default)
    case KColor => VColor(Color(0, 0, 0, 0))
    case KStatus => VNull
    case KMode => VMode(Linear)
    case KRepeat => VRepeat(RepeatMode(0))
    case KButton => VButton(Left)
    case KOther(n) => VOther(n, 0)
    case KObject => VNull
  }

  function ModeName(m: AnimationMode): string
  {
    match m
    case Linear => "Linear"
    case SwingIn => "SwingIn"
    case SwingOut => "SwingOut"
    case Swing => "Swing"
    case Focus => "Focus"
    case Jump => "Jump"
  }

  function ButtonName(b: ClickButton): string
  {
    match b
    case Left => "Left"
    case Right => "Right"
    case Middle => "Middle"
    case Unknown => "Unknown"
  }

  /** `bool.ToString()`. */
  function BoolText(b: bool): string
  {
    if b then "True" else "False"
  }

  /**
   * `obj.ToString()` on a boxed value: a NullReferenceException on null.
   * The formatting of doubles, and so of positions, colours and the other
   * structs, lies outside the model.
   */
  function ValText(v: Val): Result<string>
  {
    match v
    case VNull => Fail(NullReference)
    case VBool(b) => Ok(BoolText(b))
    case VInt(i) => Ok(IntText(i))
    case VStr(s) => Ok(s)
    case VStatus(_, path) => Ok(if |path| == 0 then "" else Join(path, '|'))
    case VMode(m) => Ok(ModeName(m))
    case VRepeat(r) => Ok(Repeats.ToText(r))
    case VButton(b) => Ok(ButtonName(b))
    case VDouble(_) => Fail(OutsideModel)
    case VPos(_) => Fail(OutsideModel)
    case VColor(_) => Fail(OutsideModel)
    case VOther(_, _) => Fail(OutsideModel)
  }

  /**
   * `a.Equals(b)` as the typed cell comparison uses it, with a null `a`
   * equal only to null: strings compare contents, statuses compare paths,
   * value types compare their fields.
   */
  predicate ValueEquals(a: Val, b: Val)
  {
    if a.VStatus? && b.VStatus? then a.path == b.path else a == b
  }

  /** `(object)a == (object)b`: reference identity of boxed values. Only null
      and status objects can be identical; every read boxes a fresh copy of a
      value type, and strings are compared by their own operator earlier. */
  predicate RefEquals(a: Val, b: Val)
  {
    (a == VNull && b == VNull) || (a.VStatus? && b.VStatus? && a.id == b.id)
  }
}
