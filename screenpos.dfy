/**
 * Screen positions: a number together with the dimension it is measured in,
 * printed with a unit suffix that the prototype loader parses back.
 */
module ScreenPositions {
  import opened Wrappers
  import opened Text

  /** The dimension of a position; Absolute is the first member and the default. */
  datatype PosType =
    | Absolute
    | Relative
    | RelativeWidth
    | RelativeHeight
    | Screen
    | ScreenWidth
    | ScreenHeight

  datatype ScreenPos = ScreenPos(value: real, posType: PosType)

  /** The default position: zero pixels, absolute. */
  const Default: ScreenPos := ScreenPos(0.0, Absolute)

  /** The position constructor keeps exactly what it is given. */
  function Make(value: real, posType: PosType): (p: ScreenPos)
    ensures p.value == value && p.posType == posType
  {
    ScreenPos(value, posType)
  }

  /** The unit suffix each dimension is printed with. */
  function Suffix(t: PosType): (s: string)
    ensures |s| <= 2
    ensures s == "" <==> t == Absolute
  {
    match t
    case Absolute => ""
    case Relative => "%"
    case RelativeWidth => "%w"
    case RelativeHeight => "%h"
    case Screen => "v"
    case ScreenWidth => "vw"
    case ScreenHeight => "vh"
  }

  /**
   * The printed form of a position, given the printed form `numText` of its
   * number (the formatting of doubles is not part of this model).
   */
  function ToText(p: ScreenPos, numText: string): (s: string)
    ensures s == numText + Suffix(p.posType)
  {
    numText + Suffix(p.posType)
  }

  /**
   * The loader's converter for ScreenPos parameters. The suffixes are tried in
   * the order %, %w, %h, v, vw, vh; the text before a suffix has its commas
   * read as points and is parsed with `invariantParse`, while text without a
   * suffix is parsed whole with `currentParse` (the current culture). A parser
   * answering None stands for the FormatException of double.Parse.
   */
  function Parse(t: string, invariantParse: string -> Option<real>, currentParse: string -> Option<real>): (r: Result<ScreenPos>)
  {
    var suffixed := [Relative, RelativeWidth, RelativeHeight, Screen, ScreenWidth, ScreenHeight];
    ParseFrom(t, suffixed, invariantParse, currentParse)
  }

  /** Tries the suffixes of `order` one after another. */
  function ParseFrom(t: string, order: seq<PosType>, invariantParse: string -> Option<real>, currentParse: string -> Option<real>): (r: Result<ScreenPos>)
    requires forall i :: 0 <= i < |order| ==> order[i] != Absolute
  {
    if |order| == 0 then
      match currentParse(t)
      case Some(v) => Ok(ScreenPos(v, Absolute))
      case None => Fail(Format)
    else if EndsWith(t, Suffix(order[0])) then
      match invariantParse(ReplaceChar(t[..|t| - |Suffix(order[0])|], ',', '.'))
      case Some(v) => Ok(ScreenPos(v, order[0]))
      case None => Fail(Format)
    else ParseFrom(t, order[1..], invariantParse, currentParse)
  }

  /**
   * What a successful parse found: a suffixed position's text ends with its
   * suffix and the number before it, commas read as points, parses to the
   * position's value; an absolute position's whole text parses to it.
   */
  lemma ParseSound(t: string, invariantParse: string -> Option<real>, currentParse: string -> Option<real>)
    ensures var r := Parse(t, invariantParse, currentParse);
      && (r.Ok? && r.value.posType != Absolute ==>
            EndsWith(t, Suffix(r.value.posType)) &&
            invariantParse(ReplaceChar(t[..|t| - |Suffix(r.value.posType)|], ',', '.')) == Some(r.value.value))
      && (r.Ok? && r.value.posType == Absolute ==> currentParse(t) == Some(r.value.value))
  {
    ParseFromSound(t, [Relative, RelativeWidth, RelativeHeight, Screen, ScreenWidth, ScreenHeight], invariantParse, currentParse);
  }

  lemma {:induction false} ParseFromSound(t: string, order: seq<PosType>,
                                          invariantParse: string -> Option<real>, currentParse: string -> Option<real>)
    requires forall i :: 0 <= i < |order| ==> order[i] != Absolute
    ensures var r := ParseFrom(t, order, invariantParse, currentParse);
      && (r.Ok? && r.value.posType != Absolute ==>
            EndsWith(t, Suffix(r.value.posType)) &&
            invariantParse(ReplaceChar(t[..|t| - |Suffix(r.value.posType)|], ',', '.')) == Some(r.value.value))
      && (r.Ok? && r.value.posType == Absolute ==> currentParse(t) == Some(r.value.value))
  {
    if |order| > 0 && !EndsWith(t, Suffix(order[0])) {
      ParseFromSound(t, order[1..], invariantParse, currentParse);
    }
  }

  /** A number text that cannot be mistaken for part of a suffix. */
  predicate SuffixFree(numText: string)
  {
    |numText| > 0 ==> numText[|numText| - 1] !in {'%', 'v', 'w', 'h'}
  }

  /**
   * Printing a position and parsing the text back recovers the position,
   * whenever the number's text parses back to the number (through the
   * invariant parser after the comma replacement for suffixed positions,
   * through the current-culture parser for absolute ones).
   */
  lemma ParseToText(p: ScreenPos, numText: string, invariantParse: string -> Option<real>, currentParse: string -> Option<real>)
    requires SuffixFree(numText)
    requires p.posType != Absolute ==> invariantParse(ReplaceChar(numText, ',', '.')) == Some(p.value)
    requires p.posType == Absolute ==> currentParse(numText) == Some(p.value)
    ensures Parse(ToText(p, numText), invariantParse, currentParse) == Ok(p)
  {
    var t := numText + Suffix(p.posType);
    var order := [Relative, RelativeWidth, RelativeHeight, Screen, ScreenWidth, ScreenHeight];
    ParseUsesOrder(t, order, invariantParse, currentParse);
    var k := PosOrder(p.posType);
    NoEarlierSuffix(numText, p.posType, order);
    ParseSkips(t, order, k, invariantParse, currentParse);
    SuffixRest(p, numText, order, invariantParse, currentParse);
  }

  lemma ParseUsesOrder(t: string, order: seq<PosType>, invariantParse: string -> Option<real>, currentParse: string -> Option<real>)
    requires order == [Relative, RelativeWidth, RelativeHeight, Screen, ScreenWidth, ScreenHeight]
    ensures Parse(t, invariantParse, currentParse) == ParseFrom(t, order, invariantParse, currentParse)
  {
  }

  /** Once the earlier suffixes are skipped, the position's own suffix, or none, parses it back. */
  lemma SuffixRest(p: ScreenPos, numText: string, order: seq<PosType>,
                   invariantParse: string -> Option<real>, currentParse: string -> Option<real>)
    requires order == [Relative, RelativeWidth, RelativeHeight, Screen, ScreenWidth, ScreenHeight]
    requires p.posType != Absolute ==> invariantParse(ReplaceChar(numText, ',', '.')) == Some(p.value)
    requires p.posType == Absolute ==> currentParse(numText) == Some(p.value)
    ensures PosOrder(p.posType) <= |order|
    ensures ParseFrom(numText + Suffix(p.posType), order[PosOrder(p.posType)..], invariantParse, currentParse) == Ok(p)
  {
    var t := numText + Suffix(p.posType);
    OrderPosition(order, p.posType);
    var rest := order[PosOrder(p.posType)..];
    if p.posType != Absolute {
      assert rest[0] == p.posType;
      assert forall i :: 0 <= i < |rest| ==> rest[i] != Absolute;
      assert t[..|t| - |Suffix(p.posType)|] == numText;
      ParseFirstSuffix(t, rest, p.value, invariantParse, currentParse);
    } else {
      assert rest == [];
      assert t == numText;
    }
  }

  /** Each suffixed position type sits in the order at its own place; the absolute one comes after all. */
  lemma OrderPosition(order: seq<PosType>, t: PosType)
    requires order == [Relative, RelativeWidth, RelativeHeight, Screen, ScreenWidth, ScreenHeight]
    ensures t == Absolute <==> PosOrder(t) == |order|
    ensures t != Absolute ==> PosOrder(t) < |order| && order[PosOrder(t)] == t
  {
  }

  /** Every suffix tried before the position's own does not match its text. */
  lemma NoEarlierSuffix(numText: string, actual: PosType, order: seq<PosType>)
    requires SuffixFree(numText)
    requires order == [Relative, RelativeWidth, RelativeHeight, Screen, ScreenWidth, ScreenHeight]
    ensures forall j :: 0 <= j < PosOrder(actual) ==> !EndsWith(numText + Suffix(actual), Suffix(order[j]))
  {
    forall j | 0 <= j < PosOrder(actual)
      ensures !EndsWith(numText + Suffix(actual), Suffix(order[j]))
    {
      assert PosOrder(order[j]) == j;
      SuffixMismatch(numText, actual, order[j]);
    }
  }

  /** The first suffix tried matches and the text before it parses. */
  lemma ParseFirstSuffix(t: string, order: seq<PosType>, v: real,
                         invariantParse: string -> Option<real>, currentParse: string -> Option<real>)
    requires forall i :: 0 <= i < |order| ==> order[i] != Absolute
    requires |order| > 0 && EndsWith(t, Suffix(order[0]))
    requires invariantParse(ReplaceChar(t[..|t| - |Suffix(order[0])|], ',', '.')) == Some(v)
    ensures ParseFrom(t, order, invariantParse, currentParse) == Ok(ScreenPos(v, order[0]))
  {
  }

  /** A suffix tried before the right one does not match. */
  lemma SuffixMismatch(numText: string, actual: PosType, tried: PosType)
    requires SuffixFree(numText)
    requires tried != Absolute && tried != actual
    requires actual == Absolute || PosOrder(tried) < PosOrder(actual)
    ensures !EndsWith(numText + Suffix(actual), Suffix(tried))
  {
    var t := numText + Suffix(actual);
    var s := Suffix(tried);
    if |s| <= |t| {
      if |s| == 1 {
        assert t[|t| - 1] != s[0];
      } else {
        assert t[|t| - 1] != s[1] || t[|t| - 2] != s[0];
      }
    }
  }

  /** The position of each suffixed dimension in the loader's test order. */
  function PosOrder(t: PosType): nat
  {
    match t
    case Absolute => 6
    case Relative => 0
    case RelativeWidth => 1
    case RelativeHeight => 2
    case Screen => 3
    case ScreenWidth => 4
    case ScreenHeight => 5
  }

  lemma ParseSkips(t: string, order: seq<PosType>, k: nat, invariantParse: string -> Option<real>, currentParse: string -> Option<real>)
    requires forall i :: 0 <= i < |order| ==> order[i] != Absolute
    requires k <= |order|
    requires forall j :: 0 <= j < k ==> !EndsWith(t, Suffix(order[j]))
    ensures ParseFrom(t, order, invariantParse, currentParse) == ParseFrom(t, order[k..], invariantParse, currentParse)
  {
    if k > 0 {
      ParseSkips(t, order[1..], k - 1, invariantParse, currentParse);
      assert order[1..][k - 1..] == order[k..];
    }
  }
}
