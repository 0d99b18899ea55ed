/**
 * The prototype loader's helpers: the static registration tables, the
 * converters from parameter text to values, status lookup, the filtering
 * and merging of loaded data, and the binding of one parameter text to
 * its target cell.
 */
module Loading {
  import opened Wrappers
  import opened CsInt
  import opened Text
  import opened Values
  import opened Statuses
  import opened Cells
  import ScreenPositions
  import Repeats
  import Channels
  import Store
  import PrototypeExport
  import Prototypes

  // ----- Enum.Parse -----

  /**
   * The members of an enumeration by name and value, in the order .NET
   * compares them (ascending value).
   */
  type Members = seq<(string, nat)>

  predicate SameName(name: string, text: string, ignoreCase: bool)
  {
    if ignoreCase then EqualsIgnoreCase(name, text) else name == text
  }

  /** The value of the first member called `text`. */
  function MemberValue(members: Members, text: string, ignoreCase: bool): Option<nat>
  {
    if |members| == 0 then None
    else if SameName(members[0].0, text, ignoreCase) then Some(members[0].1)
    else MemberValue(members[1..], text, ignoreCase)
  }

  /** Bitwise or of two naturals. */
  function BitOr(a: nat, b: nat): nat
    decreases a + b
  {
    if a == 0 then b
    else if b == 0 then a
    else 2 * BitOr(a / 2, b / 2) + (if a % 2 == 1 || b % 2 == 1 then 1 else 0)
  }

  /** Every trimmed piece names a member; the value is the or of theirs. */
  function PiecesValue(members: Members, pieces: seq<string>, ignoreCase: bool): Option<nat>
  {
    if |pieces| == 0 then Some(0)
    else match MemberValue(members, Trim(pieces[0]), ignoreCase)
      case None => None
      case Some(v) =>
        match PiecesValue(members, pieces[1..], ignoreCase)
        case None => None
        case Some(w) => Some(BitOr(v, w))
  }

  /** The name branch of `Enum.Parse`: the trimmed text, split on commas. */
  function NamesValue(members: Members, t: string, ignoreCase: bool): Option<nat>
  {
    var v := Trim(t);
    if |v| == 0 then None else PiecesValue(members, Split(v, ','), ignoreCase)
  }

  /** Text that `Enum.Parse` first tries as a number: it starts with a digit or a sign. */
  predicate NumberLike(v: string)
  {
    |v| > 0 && (IsDigit(v[0]) || v[0] == '-' || v[0] == '+')
  }

  /**
   * `Enum.Parse(type, text, ignoreCase)` for an int-based enumeration.
   * Blank text is an ArgumentException. Text that starts like a number and
   * is one gives that int, or an OverflowException out of the int range;
   * a number need not be the value of a member. Other text is read as
   * comma-separated member names, and an unknown name is an
   * ArgumentException. `Enum.TryParse` succeeds exactly when this does.
   */
  function EnumParse(members: Members, t: string, ignoreCase: bool): (r: Result<int>)
    ensures r.Fail? ==> r.fault == Argument || r.fault == Overflow
    ensures r.Ok? && !NumberLike(Trim(t)) ==> NamesValue(members, t, ignoreCase) == Some(r.value)
  {
    var v := Trim(t);
    if |v| == 0 then Fail(Argument)
    else if NumberLike(v) && ParseSigned(v).Some? then
      if IsInt(ParseSigned(v).value) then Ok(ParseSigned(v).value) else Fail(Overflow)
    else match NamesValue(members, t, ignoreCase)
      case Some(n) => Ok(n)
      case None => Fail(Argument)
  }

  predicate IsLetter(c: char) { 'A' <= c <= 'Z' || 'a' <= c <= 'z' || c == '_' }

  predicate IsNameChar(c: char) { IsLetter(c) || IsDigit(c) }

  /** A C# identifier in ASCII: a letter or underscore, then letters, digits and underscores. */
  predicate IsIdentifier(s: string)
  {
    |s| > 0 && IsLetter(s[0]) && forall i :: 0 <= i < |s| ==> IsNameChar(s[i])
  }

  /** Every member is named by an identifier, as C# requires. */
  predicate Identifiers(members: Members)
  {
    forall k :: 0 <= k < |members| ==> IsIdentifier(members[k].0)
  }

  lemma LowerKeeps(c: char)
    ensures IsLetter(Lower(c)) <==> IsLetter(c)
    ensures IsNameChar(Lower(c)) <==> IsNameChar(c)
  {
  }

  /** The characters of a printed int: a minus sign and digits. */
  lemma IntTextChars(i: int)
    ensures forall c :: c in IntText(i) ==> c == '-' || IsDigit(c)
  {
    var s := IntText(i);
    if i < 0 {
      assert s == "-" + NatText(-i);
      assert s[1..] == NatText(-i);
    }
  }

  /** A printed int parses as that number, whatever the members. */
  lemma EnumParseNumber(members: Members, i: int, ignoreCase: bool)
    requires IsInt(i)
    ensures EnumParse(members, IntText(i), ignoreCase) == Ok(i)
  {
    TrimUnchanged(IntText(i));
    ParseSignedText(i);
  }

  /** No member is called by text that starts with a digit or a sign. */
  lemma {:induction false} NumberNamesNone(members: Members, s: string, ignoreCase: bool)
    requires Identifiers(members) && NumberLike(s)
    ensures MemberValue(members, s, ignoreCase) == None
  {
    if |members| > 0 {
      var name := members[0].0;
      assert IsIdentifier(name);
      LowerKeeps(name[0]);
      assert LowerText(name)[0] != LowerText(s)[0];
      assert !SameName(name, s, ignoreCase);
      assert Identifiers(members[1..]) by {
        forall k | 0 <= k < |members[1..]| ensures IsIdentifier(members[1..][k].0) {
          assert members[1..][k] == members[k + 1];
        }
      }
      NumberNamesNone(members[1..], s, ignoreCase);
    }
  }

  /** The first member called `t` gives the value. */
  lemma {:induction false} MemberValueAt(members: Members, k: nat, t: string, ignoreCase: bool)
    requires k < |members| && SameName(members[k].0, t, ignoreCase)
    requires forall j :: 0 <= j < k ==> !SameName(members[j].0, t, ignoreCase)
    ensures MemberValue(members, t, ignoreCase) == Some(members[k].1)
    decreases k
  {
    if k > 0 {
      assert !SameName(members[0].0, t, ignoreCase);
      forall j | 0 <= j < k - 1 ensures !SameName(members[1..][j].0, t, ignoreCase) {
        assert members[1..][j] == members[j + 1];
      }
      MemberValueAt(members[1..], k - 1, t, ignoreCase);
    }
  }

  /** Text equal to an identifier, ignoring case when asked, is itself an identifier. */
  lemma NamedIsIdentifier(name: string, t: string, ignoreCase: bool)
    requires IsIdentifier(name) && SameName(name, t, ignoreCase)
    ensures IsIdentifier(t)
  {
    if ignoreCase {
      assert |t| == |name| by {
        assert |LowerText(t)| == |LowerText(name)|;
      }
      forall i | 0 <= i < |t| ensures IsNameChar(t[i]) && (i == 0 ==> IsLetter(t[i])) {
        assert LowerText(t)[i] == LowerText(name)[i];
        LowerKeeps(t[i]);
        LowerKeeps(name[i]);
      }
    }
  }

  /**
   * A member's name, in any letter case when case is ignored, parses to
   * the member's value, provided no member before it has that name.
   */
  lemma MemberParses(members: Members, k: nat, t: string, ignoreCase: bool)
    requires k < |members| && IsIdentifier(members[k].0) && SameName(members[k].0, t, ignoreCase)
    requires forall j :: 0 <= j < k ==> !SameName(members[j].0, t, ignoreCase)
    ensures EnumParse(members, t, ignoreCase) == Ok(members[k].1)
  {
    NamedIsIdentifier(members[k].0, t, ignoreCase);
    assert !IsWhite(t[0]) && !IsWhite(t[|t| - 1]) by {
      assert IsNameChar(t[|t| - 1]);
    }
    TrimUnchanged(t);
    assert ',' !in t by {
      forall i | 0 <= i < |t| ensures t[i] != ',' {
        assert IsNameChar(t[i]);
      }
    }
    assert Split(t, ',') == [t];
    MemberValueAt(members, k, t, ignoreCase);
    assert PiecesValue(members, [t][1..], ignoreCase) == Some(0);
  }

  // ----- The Color converter -----

  /** What the Color converter returns: `Color.FromKnownColor(code)` or `Color.FromArgb(a, r, g, b)`. */
  datatype ParsedColor = Known(code: int) | Argb(color: Color)

  /** `int.TryParse` succeeds on every part. */
  predicate AllInts(parts: seq<string>)
  {
    forall i :: 0 <= i < |parts| ==> ParseInt(parts[i]).Some?
  }

  /** The int part `i` holds. */
  function Part(parts: seq<string>, i: nat): int
    requires i < |parts| && AllInts(parts)
  {
    ParseInt(parts[i]).value
  }

  /**
   * The channels one to four int parts give: a grey; a grey and its alpha;
   * red, green and blue; red, green, blue and alpha. The alpha is 255 when
   * not given.
   */
  function PartsColor(parts: seq<string>): Option<Color>
  {
    if |parts| < 1 || |parts| > 4 || !AllInts(parts) then None
    else if |parts| == 1 then Some(Color(255, Part(parts, 0), Part(parts, 0), Part(parts, 0)))
    else if |parts| == 2 then Some(Color(Part(parts, 1), Part(parts, 0), Part(parts, 0), Part(parts, 0)))
    else if |parts| == 3 then Some(Color(255, Part(parts, 0), Part(parts, 1), Part(parts, 2)))
    else Some(Color(Part(parts, 3), Part(parts, 0), Part(parts, 1), Part(parts, 2)))
  }

  /**
   * The part-wise branch of the Color converter: Black for a wrong number
   * of parts or a part that is no int; otherwise `Color.FromArgb`, which
   * throws ArgumentException for a channel outside 0..255.
   */
  function ColorFromParts(parts: seq<string>): (r: Result<ParsedColor>)
    ensures r.Ok? ==> r.value.Argb? && r.value.color.Valid()
    ensures r.Fail? ==> r.fault == Argument
    ensures !(1 <= |parts| <= 4) || !AllInts(parts) ==> r == Ok(Argb(Black))
  {
    match PartsColor(parts)
    case None => Ok(Argb(Black))
    case Some(c) => if c.Valid() then Ok(Argb(c)) else Fail(Argument)
  }

  /**
   * The Color converter as written: null is Black; text `Enum.TryParse`
   * accepts for KnownColor, ignoring case, is that known colour; anything
   * else goes part-wise. Since `Enum.TryParse` accepts every int, a single
   * number is taken for a KnownColor value and never reaches the grey
   * branch.
   */
  function ColorAsWritten(knownColors: Members, t: Option<string>): (r: Result<ParsedColor>)
    ensures t.None? ==> r == Ok(Argb(Black))
  {
    if t.None? then Ok(Argb(Black))
    else match EnumParse(knownColors, t.value, true)
      case Ok(code) => Ok(Known(code))
      case Fail(_) => ColorFromParts(Split(t.value, ','))
  }

  /** The Color converter with known colours taken by name only, so that numbers go part-wise. */
  function ColorOf(knownColors: Members, t: Option<string>): (r: Result<ParsedColor>)
    ensures t.None? ==> r == Ok(Argb(Black))
    ensures r.Ok? && r.value.Argb? ==> r.value.color.Valid()
    ensures r.Ok? && r.value.Known? ==> t.Some? && NamesValue(knownColors, t.value, true) == Some(r.value.code)
    ensures r.Fail? ==> r.fault == Argument
  {
    if t.None? then Ok(Argb(Black))
    else match NamesValue(knownColors, t.value, true)
      case Some(code) => Ok(Known(code))
      case None => ColorFromParts(Split(t.value, ','))
  }

  /** As written, a single int converts to the KnownColor of that value: "128" is not the grey 128. */
  lemma ColorNumberAsWritten(knownColors: Members, n: int)
    requires IsInt(n)
    ensures ColorAsWritten(knownColors, Some(IntText(n))) == Ok(Known(n))
    ensures ColorAsWritten(knownColors, Some(IntText(n))) != Ok(Argb(Color(255, n, n, n)))
  {
    EnumParseNumber(knownColors, n, true);
  }

  /** A single number is the opaque grey of that level when it is in 0..255, and an ArgumentException otherwise. */
  lemma ColorOfGrey(knownColors: Members, n: int)
    requires Identifiers(knownColors) && IsInt(n)
    ensures ColorOf(knownColors, Some(IntText(n))) ==
      if 0 <= n <= 255 then Ok(Argb(Color(255, n, n, n))) else Fail(Argument)
  {
    var s := IntText(n);
    TrimUnchanged(s);
    IntTextChars(n);
    assert Split(s, ',') == [s];
    NumberNamesNone(knownColors, s, true);
    ParseIntText(n);
    assert AllInts([s]);
  }

  /** The four parts of "r,g,b,a". */
  function ArgbParts(c: Color): seq<string>
  {
    [IntText(c.r), IntText(c.g), IntText(c.b), IntText(c.a)]
  }

  /** The text "r,g,b,a" of a colour. */
  function ArgbText(c: Color): string
  {
    Join(ArgbParts(c), ',')
  }

  /** The text splits back into its parts, has no blanks around it, and is no number. */
  lemma ArgbTextShape(c: Color)
    requires c.Valid()
    ensures Split(ArgbText(c), ',') == ArgbParts(c)
    ensures Trim(ArgbText(c)) == ArgbText(c)
    ensures ParseSigned(ArgbText(c)).None?
  {
    var parts := ArgbParts(c);
    var s := ArgbText(c);
    var r, g, b, a := IntText(c.r), IntText(c.g), IntText(c.b), IntText(c.a);
    IntTextChars(c.r);
    IntTextChars(c.g);
    IntTextChars(c.b);
    IntTextChars(c.a);
    var p1 := parts[1..];
    var p2 := p1[1..];
    var p3 := p2[1..];
    assert p3 == [a];
    assert Join(p3, ',') == a;
    assert Join(p2, ',') == b + [','] + a;
    assert s == r + [','] + Join(p1, ',');
    assert s[|s| - 1] == a[|a| - 1];
    assert s[0] == r[0];
    TrimUnchanged(s);
    SplitJoin(parts, ',');
    assert s[|r|] == ',';
  }

  /** Each part is an int. */
  lemma ArgbPartsParse(c: Color)
    requires c.Valid()
    ensures AllInts(ArgbParts(c))
    ensures PartsColor(ArgbParts(c)) == Some(c)
  {
    ParseIntText(c.r);
    ParseIntText(c.g);
    ParseIntText(c.b);
    ParseIntText(c.a);
    FourParts(IntText(c.r), IntText(c.g), IntText(c.b), IntText(c.a), c);
  }

  /** Four int parts give the colour with those channels, alpha last. */
  lemma FourParts(p0: string, p1: string, p2: string, p3: string, c: Color)
    requires ParseInt(p0) == Some(c.r) && ParseInt(p1) == Some(c.g)
    requires ParseInt(p2) == Some(c.b) && ParseInt(p3) == Some(c.a)
    ensures AllInts([p0, p1, p2, p3]) && PartsColor([p0, p1, p2, p3]) == Some(c)
  {
    var ps := [p0, p1, p2, p3];
    assert AllInts(ps);
    assert Part(ps, 0) == c.r && Part(ps, 1) == c.g && Part(ps, 2) == c.b && Part(ps, 3) == c.a;
  }

  /**
   * Every valid colour survives printing as "r,g,b,a" and converting back,
   * both as written and with the name-only lookup.
   */
  lemma ColorOfArgbText(knownColors: Members, c: Color)
    requires Identifiers(knownColors) && c.Valid()
    ensures ColorOf(knownColors, Some(ArgbText(c))) == Ok(Argb(c))
    ensures ColorAsWritten(knownColors, Some(ArgbText(c))) == Ok(Argb(c))
  {
    var s := ArgbText(c);
    ArgbTextShape(c);
    ArgbPartsParse(c);
    var first := IntText(c.r);
    TrimUnchanged(first);
    NumberNamesNone(knownColors, first, true);
    assert Split(s, ',')[0] == first;
    assert NamesValue(knownColors, s, true) == None;
  }

  // ----- The ClickButton converter -----

  const ButtonMembers: Members := [("Left", 0), ("Right", 1), ("Middle", 2), ("Unknown", 3)]

  function ButtonValue(b: ClickButton): nat
  {
    match b
    case Left => 0
    case Right => 1
    case Middle => 2
    case Unknown => 3
  }

  /** The member with value `n`, if there is one. */
  function ButtonOf(n: int): (b: Option<ClickButton>)
    ensures b.Some? <==> 0 <= n <= 3
    ensures b.Some? ==> ButtonValue(b.value) == n
  {
    if n == 0 then Some(Left)
    else if n == 1 then Some(Right)
    else if n == 2 then Some(Middle)
    else if n == 3 then Some(Unknown)
    else None
  }

  /** What the ClickButton converter returns: a member, or an undefined value of the enumeration. */
  datatype ParsedButton = Member(button: ClickButton) | Undefined(ordinal: int)

  /**
   * The ClickButton converter as written: what `Enum.TryParse` accepts,
   * ignoring case, and Left for anything else. A number that is no
   * member's value passes through as an undefined ClickButton.
   */
  function ClickButtonAsWritten(t: Option<string>): (r: ParsedButton)
    ensures r.Undefined? ==> ButtonOf(r.ordinal).None?
    ensures r != Member(Left) ==> t.Some? && EnumParse(ButtonMembers, t.value, true).Ok?
  {
    if t.None? then Member(Left)
    else match EnumParse(ButtonMembers, t.value, true)
      case Fail(_) => Member(Left)
      case Ok(n) => if ButtonOf(n).Some? then Member(ButtonOf(n).value) else Undefined(n)
  }

  /** As written, "7" converts to a ClickButton that is no member. */
  lemma ClickButtonUndefinedAsWritten()
    ensures ClickButtonAsWritten(Some("7")) == Undefined(7)
  {
    EnumParseNumber(ButtonMembers, 7, true);
    assert IntText(7) == "7";
  }

  /** The ClickButton converter with every value that is not a member read as Left. */
  function ClickButtonOf(t: Option<string>): (b: ClickButton)
    ensures b != Left ==> t.Some? && EnumParse(ButtonMembers, t.value, true) == Ok(ButtonValue(b))
  {
    match ClickButtonAsWritten(t)
    case Member(b) => b
    case Undefined(_) => Left
  }

  /** Each member's name, in any letter case, converts to that member. */
  lemma ClickButtonNames(b: ClickButton, t: string)
    requires EqualsIgnoreCase(ButtonName(b), t)
    ensures ClickButtonAsWritten(Some(t)) == Member(b)
    ensures ClickButtonOf(Some(t)) == b
  {
    var k := ButtonValue(b);
    assert ButtonMembers[k].0 == ButtonName(b);
    assert |t| == |ButtonName(b)| by {
      assert |LowerText(t)| == |LowerText(ButtonName(b))|;
    }
    forall j | 0 <= j < k ensures !SameName(ButtonMembers[j].0, t, true) {
      assert |LowerText(ButtonMembers[j].0)| != |LowerText(t)|;
    }
    ButtonIdentifier(b);
    MemberParses(ButtonMembers, k, t, true);
  }

  lemma ButtonIdentifier(b: ClickButton)
    ensures IsIdentifier(ButtonName(b))
  {
    var s := ButtonName(b);
    forall i | 0 <= i < |s| ensures IsNameChar(s[i]) {
      match b
      case Left =>
      case Right =>
      case Middle =>
      case Unknown =>
    }
  }

  // ----- Registration tables -----

  /** The converters of the built-in parameter types. */
  datatype Converter =
    | CString | CDouble | CInt | CBool | CRepeat | CStatus | CScreenPos
    | CAlign | CValign | CAnimMode | CColor | CClickButton | CKey

  /** The `T` of a converter's `Func<..., T>`: the type of the values it gives. */
  function ResultKind(conv: Converter): Kind
  {
    match conv
    case CString => KString
    case CDouble => KDouble
    case CInt => KInt
    case CBool => KBool
    case CRepeat => KRepeat
    case CStatus => KStatus
    case CScreenPos => KPos
    case CAlign => KOther("Align")
    case CValign => KOther("Valign")
    case CAnimMode => KMode
    case CColor => KColor
    case CClickButton => KButton
    case CKey => KOther("Keys")
  }

  /**
   * Registering `x` under `name`: the first registration of a name wins,
   * so no registration changes an entry that is there already.
   */
  function Register<T>(table: map<string, T>, name: string, x: T): (r: map<string, T>)
    ensures r.Keys == table.Keys + {name}
    ensures forall n :: n in table ==> r[n] == table[n]
    ensures name !in table ==> r[name] == x
  {
    if name in table then table else table[name := x]
  }

  /** The parameter types the static constructor registers, by their names in the XML. */
  const BuiltinConverters: map<string, Converter> :=
    map["String" := CString, "Double" := CDouble, "Int" := CInt, "Bool" := CBool, "Repeat" := CRepeat,
        "Status" := CStatus, "ScreenPos" := CScreenPos, "Align" := CAlign, "Valign" := CValign,
        "AnimMode" := CAnimMode, "Color" := CColor, "ClickButton" := CClickButton, "Key" := CKey]

  /** The `T` of every registered converter. */
  function KindTable(converters: map<string, Converter>): (m: map<string, Kind>)
    ensures m.Keys == converters.Keys
  {
    map n | n in converters :: ResultKind(converters[n])
  }

  /**
   * The loader's static tables: the core prototype types, the parameter
   * types with their cell types and converters, the system values, and
   * the activator and effect types by their names in the XML.
   */
  class Registry {
    var dotnet: seq<string>
    /** `parameterTypes[n]` is `ValueWrapper<T>`, given by its `T`. */
    var parameterTypes: map<string, Kind>
    /** `mathParameterTypes[n]` is `MathValue<T>`, given by its `T`. */
    var mathParameterTypes: map<string, Kind>
    var converters: map<string, Converter>
    var systemValues: map<string, CellId>
    var activators: map<string, string>
    var effects: map<string, string>

    /** No core type is listed twice, and each parameter type has both cell types and a converter, for one `T`. */
    ghost predicate Valid()
      reads this
    {
      && PrototypeExport.NoDup(dotnet)
      && parameterTypes == KindTable(converters)
      && mathParameterTypes == KindTable(converters)
    }

    /** The static constructor: empty system values, the nine core prototypes and the built-in types. */
    constructor ()
      ensures Valid()
      ensures dotnet == ["PrototypeBase", "DisplayBase", "RenderingBase", "Image", "Text", "Line", "Rect",
                         "Ellipse", "AnimImage"]
      ensures converters == BuiltinConverters && systemValues == map[]
      ensures activators.Keys == {"StatusChange", "AfterAnimation", "Click", "KeyDown", "KeyUp", "KeyPress", "Channel"}
      ensures effects.Keys == {"ADouble", "AInt", "AColor", "AScreenPos", "ABool", "AString", "Call", "SetState",
                               "Action", "Sound", "Close", "Channel"}
    {
      dotnet := ["PrototypeBase", "DisplayBase", "RenderingBase", "Image", "Text", "Line", "Rect",
                 "Ellipse", "AnimImage"];
      converters := BuiltinConverters;
      parameterTypes := KindTable(BuiltinConverters);
      mathParameterTypes := KindTable(BuiltinConverters);
      systemValues := map[];
      activators := map["StatusChange" := "StatusChange", "AfterAnimation" := "AfterAnimation",
                        "Click" := "ClickAnimation", "KeyDown" := "KeyDownActivation", "KeyUp" := "KeyUpActivation",
                        "KeyPress" := "KeyPressActivation", "Channel" := "ChannelActivation"];
      effects := map["ADouble" := "ADouble", "AInt" := "AInt", "AColor" := "AColor", "AScreenPos" := "AScreenPos",
                     "ABool" := "ABool", "AString" := "AString", "Call" := "Call", "SetState" := "SetState",
                     "Action" := "AnimAction", "Sound" := "PlaySound", "Close" := "CloseEffect",
                     "Channel" := "ChannelEffect"];
    }

    /** `AddDotNetPrototype`: a type already listed is not listed again. */
    method AddDotNetPrototype(t: string)
      requires Valid()
      modifies this`dotnet
      ensures Valid() && dotnet == PrototypeExport.AddNew(old(dotnet), [t])
      ensures t in dotnet && old(dotnet) <= dotnet
    {
      PrototypeExport.AddNewMeaning(dotnet, [t]);
      if t !in dotnet {
        dotnet := dotnet + [t];
      }
    }

    /** `AddParameterType`: the cell types and the converter are registered together, the first time only. */
    method AddParameterType(name: string, conv: Converter)
      requires Valid()
      modifies this`parameterTypes, this`mathParameterTypes, this`converters
      ensures Valid()
      ensures converters == Register(old(converters), name, conv)
      ensures parameterTypes == Register(old(parameterTypes), name, ResultKind(conv))
      ensures mathParameterTypes == Register(old(mathParameterTypes), name, ResultKind(conv))
    {
      if name !in parameterTypes {
        parameterTypes := parameterTypes[name := ResultKind(conv)];
        mathParameterTypes := mathParameterTypes[name := ResultKind(conv)];
        converters := converters[name := conv];
      }
    }

    /** `AddActivator`: the activation type under its XML name, the first time only. */
    method AddActivator(name: string, typeName: string)
      modifies this`activators
      ensures activators == Register(old(activators), name, typeName)
    {
      if name !in activators {
        activators := activators[name := typeName];
      }
    }

    /** `AddEffect`: the effect type under its XML name, the first time only. */
    method AddEffect(name: string, typeName: string)
      modifies this`effects
      ensures effects == Register(old(effects), name, typeName)
    {
      if name !in effects {
        effects := effects[name := typeName];
      }
    }
  }

  // ----- Loaded data -----

  /**
   * What the converters take from the platform: double parsing in the
   * invariant and the current culture (None for a FormatException), and
   * the members of KnownColor, Align, Valign and Keys with the colour of
   * every KnownColor value.
   */
  datatype Platform = Platform(invariantParse: string -> Option<real>, currentParse: string -> Option<real>,
                               knownColors: Members, knownArgb: int -> Color,
                               aligns: Members, valigns: Members, keys: Members)

  const ModeMembers: Members :=
    [("Linear", 0), ("SwingIn", 1), ("SwingOut", 2), ("Swing", 3), ("Focus", 4), ("Jump", 5)]

  /** The animation mode with value `n`, if there is one. */
  function ModeOf(n: int): Option<AnimationMode>
  {
    if n == 0 then Some(Linear)
    else if n == 1 then Some(SwingIn)
    else if n == 2 then Some(SwingOut)
    else if n == 3 then Some(Swing)
    else if n == 4 then Some(Focus)
    else if n == 5 then Some(Jump)
    else None
  }

  /** `Enum.Parse` (case-sensitive) into the enumeration called `typeName`. */
  function EnumValue(typeName: string, members: Members, t: string): (r: Result<Val>)
    ensures r.Ok? <==> EnumParse(members, t, false).Ok?
    ensures r.Ok? ==> EnumParse(members, t, false).Ok? && r.value == VOther(typeName, EnumParse(members, t, false).value)
    ensures r.Ok? ==> Fits(KOther(typeName), r.value)
  {
    match EnumParse(members, t, false)
    case Ok(n) => Ok(VOther(typeName, n))
    case Fail(f) => Fail(f)
  }

  /** The Double converter: commas read as points, parsed in the invariant culture. */
  function DoubleValue(platform: Platform, t: string): (r: Result<Val>)
    ensures r.Ok? ==> r.value.VDouble?
    ensures r.Fail? ==> r.fault == Format
    ensures r.Ok? ==> Fits(KDouble, r.value)
  {
    match platform.invariantParse(ReplaceChar(t, ',', '.'))
    case Some(d) => Ok(VDouble(d))
    case None => Fail(Format)
  }

  /** The Int converter, `int.Parse`: a FormatException or an OverflowException when the text is no int. */
  function IntValue(t: string): (r: Result<Val>)
    ensures r.Ok? <==> ParseInt(t).Some?
    ensures r.Ok? ==> r.value == VInt(ParseInt(t).value)
    ensures r.Ok? ==> Fits(KInt, r.value)
  {
    match ParseSigned(t)
    case None => Fail(Format)
    case Some(i) => if IsInt(i) then Ok(VInt(i)) else Fail(Overflow)
  }

  /** The Bool converter, `bool.Parse`. */
  function BoolValue(t: string): (r: Result<Val>)
    ensures r.Ok? <==> ParseBool(t).Some?
    ensures r.Ok? ==> r.value == VBool(ParseBool(t).value)
    ensures r.Ok? ==> Fits(KBool, r.value)
  {
    match ParseBool(t)
    case None => Fail(Format)
    case Some(b) => Ok(VBool(b))
  }

  function RepeatValue(t: string): (r: Result<Val>)
    ensures r.Ok? <==> Repeats.Parse(t).Ok?
    ensures r.Ok? ==> r.value == VRepeat(Repeats.Parse(t).value)
    ensures r.Ok? ==> Fits(KRepeat, r.value)
  {
    match Repeats.Parse(t)
    case Ok(m) => Ok(VRepeat(m))
    case Fail(f) => Fail(f)
  }

  function PosValue(platform: Platform, t: string): (r: Result<Val>)
    ensures r.Ok? ==> r.value.VPos?
    ensures r.Ok? ==> Fits(KPos, r.value)
  {
    match ScreenPositions.Parse(t, platform.invariantParse, platform.currentParse)
    case Ok(p) => Ok(VPos(p))
    case Fail(f) => Fail(f)
  }

  /** The AnimMode converter, `Enum.Parse` (case-sensitive); a number that is no mode is outside the model. */
  function ModeValue(t: string): (r: Result<Val>)
    ensures r.Ok? ==> r.value.VMode?
    ensures r.Ok? ==> Fits(KMode, r.value)
  {
    match EnumParse(ModeMembers, t, false)
    case Ok(n) => if ModeOf(n).Some? then Ok(VMode(ModeOf(n).value)) else Fail(OutsideModel)
    case Fail(f) => Fail(f)
  }

  /** The Color converter's colour: a known colour's channels come from the platform. */
  function ColorValue(platform: Platform, t: string): (r: Result<Val>)
    ensures r.Ok? ==> r.value.VColor?
    ensures r.Fail? ==> r.fault == Argument
    ensures r.Ok? ==> Fits(KColor, r.value)
  {
    match ColorOf(platform.knownColors, Some(t))
    case Ok(Known(code)) => Ok(VColor(platform.knownArgb(code)))
    case Ok(Argb(c)) => Ok(VColor(c))
    case Fail(f) => Fail(f)
  }

  /** `FindStatus` of a loader with catalog `cat` and roots `status`: the status the root under `parts[0]` finds for the whole path; null for no parts. */
  function FindStatus(cat: seq<StatusNode>, status: map<string, nat>, parts: seq<string>): (r: Option<nat>)
    requires Statuses.Valid(cat) && Channels.RootsOf(cat, status)
    ensures |parts| == 0 ==> r.None?
    ensures r.Some? ==> r.value < |cat| && Path(cat, r.value) == parts
  {
    if |parts| == 0 || parts[0] !in status then None
    else
      LookupPath(cat, status[parts[0]], parts);
      Lookup(cat, status[parts[0]], parts)
  }

  /** What converter `conv` makes of the text `t`, or the exception it throws. */
  function Convert(cat: seq<StatusNode>, status: map<string, nat>, conv: Converter, platform: Platform, t: string)
    : (r: Result<Val>)
    requires Statuses.Valid(cat) && Channels.RootsOf(cat, status)
    ensures r.Ok? ==> Fits(ResultKind(conv), r.value)
    ensures r.Ok? && conv == CStatus && r.value != VNull ==>
      r.value.VStatus? && r.value.id < |cat| && Path(cat, r.value.id) == Split(t, '|')
  {
    if conv == CStatus then StatusValue(cat, status, t) else TextValue(conv, platform, t)
  }

  /** The Status converter: the status at the `|`-separated path, or null when there is none. */
  function StatusValue(cat: seq<StatusNode>, status: map<string, nat>, t: string): (r: Result<Val>)
    requires Statuses.Valid(cat) && Channels.RootsOf(cat, status)
    ensures r.Ok? && (r.value == VNull || r.value.VStatus?)
    ensures r.value != VNull ==> r.value.id < |cat| && Path(cat, r.value.id) == Split(t, '|')
  {
    match FindStatus(cat, status, Split(t, '|'))
    case None => Ok(VNull)
    case Some(k) => Ok(VStatus(k, Path(cat, k)))
  }

  /** Every converter but the Status one: these need no status catalog. */
  function TextValue(conv: Converter, platform: Platform, t: string): (r: Result<Val>)
    requires conv != CStatus
    ensures r.Ok? ==> Fits(ResultKind(conv), r.value)
  {
    match conv
    case CString => Ok(VStr(t))
    case CDouble => DoubleValue(platform, t)
    case CInt => IntValue(t)
    case CBool => BoolValue(t)
    case CRepeat => RepeatValue(t)
    case CScreenPos => PosValue(platform, t)
    case CAlign => EnumValue("Align", platform.aligns, t)
    case CValign => EnumValue("Valign", platform.valigns, t)
    case CAnimMode => ModeValue(t)
    case CColor => ColorValue(platform, t)
    case CClickButton => Ok(VButton(ClickButtonOf(Some(t))))
    case CKey => EnumValue("Keys", platform.keys, t)
  }

  /**
   * The Status converter finds what the channel's `GetStatus` finds, and
   * so reads the printed name of a status back as that status.
   */
  lemma StatusValueText(cat: seq<StatusNode>, status: map<string, nat>, k: nat)
    requires Statuses.Valid(cat) && Statuses.UniqueSiblings(cat) && Channels.RootsOf(cat, status) && k < |cat|
    requires forall m :: 0 <= m < |cat| ==> '|' !in cat[m].name
    requires var r := Statuses.Root(cat, k); cat[r].name in status && status[cat[r].name] == r
    ensures StatusValue(cat, status, Statuses.ToText(cat, k)) == Ok(VStatus(k, Path(cat, k)))
  {
    Channels.StatusOfText(cat, status, k);
    StatusValueAgrees(cat, status, Statuses.ToText(cat, k));
  }

  /** The Status converter and the channel's `GetStatus` find the same status. */
  lemma StatusValueAgrees(cat: seq<StatusNode>, status: map<string, nat>, t: string)
    requires Statuses.Valid(cat) && Channels.RootsOf(cat, status)
    ensures var s := Channels.StatusOf(cat, status, Some(t));
      StatusValue(cat, status, t) == if s.None? then Ok(VNull) else Ok(VStatus(s.value, Path(cat, s.value)))
  {
  }

  /** A loaded prototype, and whether its run-time type is `PrototypeBase` itself rather than a subclass. */
  datatype Entry = Entry(proto: Prototypes.ProtoId, plain: bool)

  const BaseKey: string := "PrototypeBase"

  /** What one parameter text asks of its target cell. */
  datatype Binding =
    | Absent             // no text: the parameter does not exist
    | Refer(src: CellId) // read through this cell
    | Assign(v: Val)     // hold this value
    | Unbound            // an "@name" no prototype on the parent chain answers: nothing changes

  /** The answer of the first prototype on the parent chain that has the parameter. */
  function Nearest(chain: seq<Option<CellId>>): Option<CellId>
  {
    if |chain| == 0 then None else if chain[0].Some? then chain[0] else Nearest(chain[1..])
  }

  /** Nearest finds the first answer, and nothing only when no prototype answers. */
  lemma {:induction false} NearestFirst(chain: seq<Option<CellId>>)
    ensures Nearest(chain).None? <==> forall k :: 0 <= k < |chain| ==> chain[k].None?
    ensures forall k :: 0 <= k < |chain| && chain[k].Some? && (forall j :: 0 <= j < k ==> chain[j].None?) ==>
      Nearest(chain) == chain[k]
  {
    if |chain| > 0 {
      NearestFirst(chain[1..]);
      assert forall k :: 1 <= k < |chain| ==> chain[1..][k - 1] == chain[k];
    }
  }

  /** `Exists := b` on cell `c`. */
  function Present(cells: seq<Cell>, c: CellId, b: bool): seq<Cell>
    requires c < |cells|
  {
    cells[c := cells[c].(present := b)]
  }

  /** The cast of `src` to the type of typed cell `c` throws. */
  predicate Clash(cells: seq<Cell>, c: CellId, src: CellId)
    requires c < |cells| && src < |cells|
  {
    cells[c].Typed() && !(cells[src].Typed() && cells[src].kind == cells[c].kind)
  }

  /** `RemoteSource := src` on cell `c`: an expression node ignores it. */
  function Rebound(cells: seq<Cell>, c: CellId, src: CellId): seq<Cell>
    requires c < |cells|
  {
    if cells[c].Typed() then cells[c := WithRemote(cells[c], Some(src))] else cells
  }

  /** `Value := v` on cell `c`: the end of its remote chain takes the value. */
  ghost function Stored(cells: seq<Cell>, rank: seq<nat>, c: CellId, v: Val): seq<Cell>
    requires Ranked(cells, rank) && c < |cells|
  {
    var w := WriteTarget(cells, rank, c);
    if w.Some? then cells[w.value := WithValue(cells[w.value], v)] else cells
  }

  /** Binding to `src`: the source is cast to the target's type, then `Exists := true`. */
  ghost predicate ReferOutcome(before: seq<Cell>, after: seq<Cell>, c: CellId, src: CellId, r: Result<()>)
    requires c < |before| && src < |before|
  {
    if Clash(before, c, src) then r == Fail(InvalidCast) && after == before
    else r.Ok? && after == Present(Rebound(before, c, src), c, true)
  }

  /** Assigning `v`: the value is cast to the target's type, stored, then `Exists := true`. */
  ghost predicate AssignOutcome(before: seq<Cell>, after: seq<Cell>, rank: seq<nat>, c: CellId, v: Val, r: Result<()>)
    requires Ranked(before, rank) && c < |before|
  {
    if before[c].Typed() && !Fits(before[c].kind, v) then
      r.Fail? && Cast(before[c].kind, v) == Fail(r.fault) && after == before
    else r.Ok? && after == Present(Stored(before, rank, c, v), c, true)
  }

  /** What carrying out binding `b` on cell `c` gives: the new cells and the method's result. */
  ghost predicate Outcome(before: seq<Cell>, after: seq<Cell>, rank: seq<nat>, c: CellId, b: Result<Binding>,
                          r: Result<()>)
    requires Ranked(before, rank) && c < |before|
  {
    match b
    case Fail(f) => r == Fail(f) && after == before
    case Ok(Absent) => r == Ok(()) && after == Present(before, c, false)
    case Ok(Unbound) => r == Ok(()) && after == before
    case Ok(Refer(src)) => src < |before| && ReferOutcome(before, after, c, src, r)
    case Ok(Assign(v)) => AssignOutcome(before, after, rank, c, v, r)
  }

  // ----- Filter and Include -----

  /** Whether key `k` passes a filter: a non-empty whitelist must list it; otherwise the blacklist must not. */
  predicate Kept(wl: seq<string>, bl: seq<string>, k: string)
  {
    if |wl| > 0 then k in wl else k !in bl
  }

  /** The entries of `m` whose keys pass the filter. */
  function Keep<T>(m: map<string, T>, wl: seq<string>, bl: seq<string>): map<string, T>
  {
    map k | k in m && Kept(wl, bl, k) :: m[k]
  }

  /**
   * Copying the entries of `src` that pass the filter into `dst`, one by
   * one: with `Dictionary.Add` (`replace` false) a key `dst` already has
   * throws an ArgumentException; with the indexer (`replace` true) it is
   * overwritten.
   */
  method KeepInto<T>(src: map<string, T>, dst: map<string, T>, wl: seq<string>, bl: seq<string>, replace: bool)
    returns (r: Result<map<string, T>>)
    ensures r.Fail? <==> !replace && !(Keep(src, wl, bl).Keys !! dst.Keys)
    ensures r.Fail? ==> r.fault == Argument
    ensures r.Ok? ==> r.value == dst + Keep(src, wl, bl)
  {
    var m := dst;
    var left := src.Keys;
    ghost var done: map<string, T> := map[];
    while left != {}
      invariant left <= src.Keys && done.Keys == src.Keys - left
      invariant forall k :: k in done ==> done[k] == src[k]
      invariant m == dst + Keep(done, wl, bl)
      invariant !replace ==> Keep(done, wl, bl).Keys !! dst.Keys
      decreases left
    {
      var k :| k in left;
      if Kept(wl, bl, k) {
        if k in m && !replace {
          assert k in Keep(src, wl, bl) && k in dst;
          return Fail(Argument);
        }
        KeepStep(dst, done, wl, bl, k, src[k]);
        m := m[k := src[k]];
      } else {
        assert Keep(done[k := src[k]], wl, bl) == Keep(done, wl, bl);
      }
      done := done[k := src[k]];
      left := left - {k};
    }
    assert done == src;
    r := Ok(m);
  }

  /** Keeping one more entry that passes the filter. */
  lemma KeepStep<T>(dst: map<string, T>, done: map<string, T>, wl: seq<string>, bl: seq<string>, k: string, x: T)
    requires k !in done && Kept(wl, bl, k)
    ensures Keep(done[k := x], wl, bl) == Keep(done, wl, bl)[k := x]
    ensures (dst + Keep(done, wl, bl))[k := x] == dst + Keep(done[k := x], wl, bl)
  {
  }

  /**
   * What `Include` makes of a dictionary: a key only `theirs` has is added;
   * a key both have takes `theirs`' entry when overwriting, unless the key
   * is in `fixed`.
   */
  function Merged<T>(mine: map<string, T>, theirs: map<string, T>, overwrite: bool, fixed: set<string>)
    : map<string, T>
  {
    map k | k in mine.Keys + theirs.Keys ::
      if k in theirs && (k !in mine || (overwrite && k !in fixed)) then theirs[k] else mine[k]
  }

  /**
   * Without overwriting, what was there stays and the rest is added; with
   * overwriting and nothing fixed, the other side wins every shared key.
   */
  lemma MergedUnion<T>(mine: map<string, T>, theirs: map<string, T>, overwrite: bool, fixed: set<string>)
    ensures !overwrite ==> Merged(mine, theirs, overwrite, fixed) == theirs + mine
    ensures overwrite && fixed == {} ==> Merged(mine, theirs, overwrite, fixed) == mine + theirs
    ensures forall k :: k in mine && (k in fixed || k !in theirs) ==> Merged(mine, theirs, overwrite, fixed)[k] == mine[k]
  {
    var m := Merged(mine, theirs, overwrite, fixed);
    if !overwrite {
      assert forall k :: k in m ==> k in theirs + mine && m[k] == (theirs + mine)[k];
      assert m == theirs + mine;
    }
    if overwrite && fixed == {} {
      assert forall k :: k in m ==> k in mine + theirs && m[k] == (mine + theirs)[k];
      assert m == mine + theirs;
    }
  }

  /** The merging loop of `Include` over one dictionary. */
  method MergeInto<T>(mine: map<string, T>, theirs: map<string, T>, overwrite: bool, fixed: set<string>)
    returns (m: map<string, T>)
    ensures m == Merged(mine, theirs, overwrite, fixed)
  {
    m := mine;
    var left := theirs.Keys;
    ghost var done: map<string, T> := map[];
    while left != {}
      invariant left <= theirs.Keys && done.Keys == theirs.Keys - left
      invariant forall k :: k in done ==> done[k] == theirs[k]
      invariant m == Merged(mine, done, overwrite, fixed)
      decreases left
    {
      var k :| k in left;
      MergeStep(mine, done, overwrite, fixed, k, theirs[k]);
      if k in m {
        if overwrite && k !in fixed {
          m := m[k := theirs[k]];
        }
      } else {
        m := m[k := theirs[k]];
      }
      done := done[k := theirs[k]];
      left := left - {k};
    }
    assert done == theirs;
  }

  /** Merging one more entry of the other dictionary. */
  lemma MergeStep<T>(mine: map<string, T>, done: map<string, T>, overwrite: bool, fixed: set<string>, k: string, x: T)
    requires k !in done
    ensures var m := Merged(mine, done, overwrite, fixed);
      Merged(mine, done[k := x], overwrite, fixed) ==
        if k in m && !(k !in mine || (overwrite && k !in fixed)) then m else m[k := x]
  {
  }

  /** The loaded files of `Include`: `files` in order, each not yet listed appended. */
  method AppendNew(mine: seq<string>, files: seq<string>) returns (r: seq<string>)
    ensures r == PrototypeExport.AddNew(mine, files)
  {
    r := mine;
    var i := 0;
    while i < |files|
      invariant i <= |files| && r == PrototypeExport.AddNew(mine, files[..i])
    {
      PrototypeExport.AddNewAppend(mine, files[..i], [files[i]]);
      assert files[..i + 1] == files[..i] + [files[i]];
      if files[i] !in r {
        r := r + [files[i]];
      }
      i := i + 1;
    }
    assert files[..i] == files;
  }

  /** The keys of prototypes whose type is PrototypeBase itself. */
  function Plain(ps: map<string, Entry>): set<string>
  {
    set k | k in ps && ps[k].plain
  }

  /** The new loader's PrototypeBase, or a kept one of type PrototypeBase itself, stays under its key. */
  lemma KeepBase(ps: map<string, Entry>, wl: seq<string>, bl: seq<string>, base: Prototypes.ProtoId)
    requires BaseKey in ps && ps[BaseKey].plain
    ensures var m := map[BaseKey := Entry(base, true)] + Keep(ps, wl, bl); BaseKey in m && m[BaseKey].plain
  {
  }

  /** Adding to an empty dictionary. */
  lemma AddedToEmpty<T>(m: map<string, T>)
    ensures map[] + m == m
  {
  }

  /** Filtering a map of root statuses gives roots only. */
  lemma KeepRoots(cat: seq<StatusNode>, status: map<string, nat>, wl: seq<string>, bl: seq<string>)
    requires Channels.RootsOf(cat, status)
    ensures Channels.RootsOf(cat, Keep(status, wl, bl))
  {
  }

  /** Merging two maps of root statuses gives roots only. */
  lemma MergedRoots(cat: seq<StatusNode>, mine: map<string, nat>, theirs: map<string, nat>, overwrite: bool)
    requires Channels.RootsOf(cat, mine) && Channels.RootsOf(cat, theirs)
    ensures Channels.RootsOf(cat, Merged(mine, theirs, overwrite, {}))
  {
  }

  /**
   * A `PrototypeLoader`'s data: prototypes, global objects and root
   * statuses by name, the files loaded, and the cells declared with an id.
   */
  class Loader {
    const cat: seq<StatusNode>
    var prototypes: map<string, Entry>
    var objects: map<string, Prototypes.ProtoId>
    var status: map<string, nat>
    var loadedFiles: seq<string>
    var idList: map<string, CellId>

    /** Statuses are roots of the catalog, the loader's own PrototypeBase is there, and no file is listed twice. */
    ghost predicate Valid()
      reads this
    {
      && Statuses.Valid(cat) && Channels.RootsOf(cat, status)
      && BaseKey in prototypes && prototypes[BaseKey].plain
      && PrototypeExport.NoDup(loadedFiles)
    }

    /** A loader holding only a new PrototypeBase, `base`. */
    constructor (cat: seq<StatusNode>, base: Prototypes.ProtoId)
      requires Statuses.Valid(cat)
      ensures Valid() && this.cat == cat
      ensures prototypes == map[BaseKey := Entry(base, true)]
      ensures objects == map[] && status == map[] && loadedFiles == [] && idList == map[]
    {
      this.cat := cat;
      prototypes := map[BaseKey := Entry(base, true)];
      objects := map[];
      status := map[];
      loadedFiles := [];
      idList := map[];
    }

    /**
     * What `SetParameter` asks of the target: nothing for no text; "$name"
     * a system value and "#name" a cell declared with that id, each a
     * KeyNotFoundException when missing; "@name" the nearest answer on the
     * parent chain, where `chain[k]` is what the k-th prototype from the
     * current one up answers for the name; any other text an
     * ArgumentException when a reference is forced, and otherwise its
     * conversion by the given converter or the one registered under the
     * target's name.
     */
    function BindingOf(reg: Registry, value: Option<string>, targetName: string, chain: seq<Option<CellId>>,
                     forceref: bool, custom: Option<Converter>, platform: Platform): (r: Result<Binding>)
      requires Valid()
      reads this, reg
    {
      if value.None? then Ok(Absent)
      else
        var t := value.value;
        if |t| > 0 && t[0] == '$' then
          if t[1..] in reg.systemValues then Ok(Refer(reg.systemValues[t[1..]])) else Fail(KeyNotFound)
        else if |t| > 0 && t[0] == '@' then
          match Nearest(chain)
          case None => Ok(Unbound)
          case Some(c) => Ok(Refer(c))
        else if |t| > 0 && t[0] == '#' then
          if t[1..] in idList then Ok(Refer(idList[t[1..]])) else Fail(KeyNotFound)
        else ValueOf(reg, t, targetName, forceref, custom, platform)
    }

    /**
     * The binding of a text that names no reference: an ArgumentException
     * when a reference is forced, otherwise the value the given converter,
     * or else the one registered under the target's name, makes of it.
     */
    function ValueOf(reg: Registry, t: string, targetName: string, forceref: bool, custom: Option<Converter>,
                     platform: Platform): (r: Result<Binding>)
      requires Valid()
      reads this, reg
      ensures r.Ok? ==> r.value.Assign?
    {
      if forceref then Fail(Argument)
      else if custom.None? && targetName !in reg.converters then Fail(KeyNotFound)
      else
        var conv := if custom.Some? then custom.value else reg.converters[targetName];
        match Convert(cat, status, conv, platform, t)
        case Ok(v) => Ok(Assign(v))
        case Fail(f) => Fail(f)
    }

    /**
     * A value converted by the converter registered under a parameter's
     * name fits the cell type registered under that name, so assigning it to
     * a cell the loader created for the parameter never throws.
     */
    lemma RegisteredValueFits(reg: Registry, t: string, name: string, platform: Platform,
                              cells: seq<Cell>, rank: seq<nat>, c: CellId, after: seq<Cell>, r: Result<()>)
      requires Valid() && reg.Valid() && name in reg.converters
      requires Ranked(cells, rank) && c < |cells| && cells[c].Typed() && cells[c].kind == reg.parameterTypes[name]
      requires ValueOf(reg, t, name, false, None, platform).Ok?
      requires AssignOutcome(cells, after, rank, c, ValueOf(reg, t, name, false, None, platform).value.v, r)
      ensures Fits(reg.parameterTypes[name], ValueOf(reg, t, name, false, None, platform).value.v)
      ensures r.Ok?
    {
      assert reg.parameterTypes[name] == ResultKind(reg.converters[name]);
    }

    /**
     * `SetParameter`: carries out the binding of `value` on `target` in
     * `store`. A failed cast leaves the target as it was.
     */
    method SetParameter(reg: Registry, store: Store.CellStore, value: Option<string>, target: CellId,
                        chain: seq<Option<CellId>>, forceref: bool, custom: Option<Converter>, platform: Platform,
                        ghost rank: seq<nat>)
      returns (r: Result<()>)
      requires Valid() && store.Valid() && Ranked(store.cells, rank) && target < |store.cells|
      requires forall n :: n in reg.systemValues ==> reg.systemValues[n] < |store.cells|
      requires forall n :: n in idList ==> idList[n] < |store.cells|
      requires forall k :: 0 <= k < |chain| && chain[k].Some? ==> chain[k].value < |store.cells|
      modifies store
      ensures store.Valid()
      ensures Outcome(old(store.cells), store.cells, rank, target,
        BindingOf(reg, value, old(store.cells)[target].name, chain, forceref, custom, platform), r)
    {
      if value.None? {
        store.SetPresent(target, false);
        return Ok(());
      }
      var t := value.value;
      if |t| > 0 && t[0] == '$' {
        var name := t[1..];
        if name !in reg.systemValues {
          return Fail(KeyNotFound);
        }
        r := BindTo(store, target, reg.systemValues[name]);
      } else if |t| > 0 && t[0] == '@' {
        r := BindNearest(store, target, chain);
      } else if |t| > 0 && t[0] == '#' {
        var name := t[1..];
        if name !in idList {
          return Fail(KeyNotFound);
        }
        r := BindTo(store, target, idList[name]);
      } else {
        r := SetValue(reg, store, t, target, forceref, custom, platform, rank);
      }
    }

    /** The last case of `SetParameter`: a text converted to a value and assigned. */
    method SetValue(reg: Registry, store: Store.CellStore, t: string, target: CellId, forceref: bool,
                    custom: Option<Converter>, platform: Platform, ghost rank: seq<nat>)
      returns (r: Result<()>)
      requires Valid() && store.Valid() && Ranked(store.cells, rank) && target < |store.cells|
      modifies store
      ensures store.Valid()
      ensures Outcome(old(store.cells), store.cells, rank, target,
        ValueOf(reg, t, old(store.cells)[target].name, forceref, custom, platform), r)
    {
      if forceref {
        return Fail(Argument);
      }
      var conv: Converter;
      if custom.Some? {
        conv := custom.value;
      } else {
        if store.cells[target].name !in reg.converters {
          return Fail(KeyNotFound);
        }
        conv := reg.converters[store.cells[target].name];
      }
      var x := Convert(cat, status, conv, platform, t);
      if x.Fail? {
        return Fail(x.fault);
      }
      r := AssignTo(store, target, x.value, rank);
    }

    /** The "@name" case: binds to the nearest answer on the parent chain, if any. */
    static method BindNearest(store: Store.CellStore, target: CellId, chain: seq<Option<CellId>>) returns (r: Result<()>)
      requires store.Valid() && target < |store.cells|
      requires forall k :: 0 <= k < |chain| && chain[k].Some? ==> chain[k].value < |store.cells|
      modifies store
      ensures store.Valid()
      ensures Nearest(chain).None? ==> r == Ok(()) && store.cells == old(store.cells)
      ensures Nearest(chain).Some? ==>
        Nearest(chain).value < |old(store.cells)| &&
        ReferOutcome(old(store.cells), store.cells, target, Nearest(chain).value, r)
    {
      var k := 0;
      while k < |chain|
        invariant k <= |chain| && Nearest(chain[k..]) == Nearest(chain)
        invariant store.cells == old(store.cells)
      {
        if chain[k].Some? {
          r := BindTo(store, target, chain[k].value);
          return;
        }
        assert chain[k..][1..] == chain[k + 1..];
        k := k + 1;
      }
      r := Ok(());
    }

    /** Assigning a converted value: `Value := v`, then `Exists := true` when the cast succeeded. */
    static method AssignTo(store: Store.CellStore, target: CellId, v: Val, ghost rank: seq<nat>) returns (r: Result<()>)
      requires store.Valid() && Ranked(store.cells, rank) && target < |store.cells|
      modifies store
      ensures store.Valid() && AssignOutcome(old(store.cells), store.cells, rank, target, v, r)
    {
      r := store.Write(target, v, rank);
      if r.Ok? {
        store.SetPresent(target, true);
      }
    }

    /**
     * `Filter` as written: a new loader, holding a new PrototypeBase `base`,
     * gets the prototypes, objects and root statuses that pass the
     * filters, by `Dictionary.Add`; the file list stays empty. The
     * PrototypeBase entry of this loader is copied too unless the
     * prototype filter drops it, and then `Add` meets the new loader's own.
     */
    method FilterAsWritten(wp: seq<string>, wo: seq<string>, ws: seq<string>,
                           bp: seq<string>, bo: seq<string>, bs: seq<string>, base: Prototypes.ProtoId)
      returns (r: Result<Loader>)
      requires Valid()
      ensures r.Fail? <==> Kept(wp, bp, BaseKey)
      ensures r.Fail? ==> r.fault == Argument
      ensures r.Ok? ==> fresh(r.value) && r.value.Valid() && r.value.cat == cat
      ensures r.Ok? ==> r.value.prototypes == map[BaseKey := Entry(base, true)] + Keep(prototypes, wp, bp)
      ensures r.Ok? ==> r.value.objects == Keep(objects, wo, bo) && r.value.status == Keep(status, ws, bs)
      ensures r.Ok? ==> r.value.loadedFiles == [] && r.value.idList == map[]
    {
      var ps := KeepInto(prototypes, map[BaseKey := Entry(base, true)], wp, bp, false);
      if ps.Fail? {
        return Fail(ps.fault);
      }
      var os := KeepInto(objects, map[], wo, bo, false);
      var ss := KeepInto(status, map[], ws, bs, false);
      KeepRoots(cat, status, ws, bs);
      KeepBase(prototypes, wp, bp, base);
      AddedToEmpty(Keep(objects, wo, bo));
      AddedToEmpty(Keep(status, ws, bs));
      var pl := Filled(cat, base, ps.value, os.value, ss.value);
      return Ok(pl);
    }

    /**
     * `Filter` as evidently intended: the same, but an entry that passes
     * the filter replaces the new loader's PrototypeBase, so it never throws.
     */
    method Filter(wp: seq<string>, wo: seq<string>, ws: seq<string>,
                  bp: seq<string>, bo: seq<string>, bs: seq<string>, base: Prototypes.ProtoId)
      returns (pl: Loader)
      requires Valid()
      ensures fresh(pl) && pl.Valid() && pl.cat == cat
      ensures pl.prototypes == map[BaseKey := Entry(base, true)] + Keep(prototypes, wp, bp)
      ensures pl.objects == Keep(objects, wo, bo) && pl.status == Keep(status, ws, bs)
      ensures pl.loadedFiles == [] && pl.idList == map[]
    {
      var ps := KeepInto(prototypes, map[BaseKey := Entry(base, true)], wp, bp, true);
      var os := KeepInto(objects, map[], wo, bo, true);
      var ss := KeepInto(status, map[], ws, bs, true);
      KeepRoots(cat, status, ws, bs);
      KeepBase(prototypes, wp, bp, base);
      AddedToEmpty(Keep(objects, wo, bo));
      AddedToEmpty(Keep(status, ws, bs));
      pl := Filled(cat, base, ps.value, os.value, ss.value);
    }

    /** A new loader, holding the new PrototypeBase `base`, whose dictionaries are then filled. */
    static method Filled(cat: seq<StatusNode>, base: Prototypes.ProtoId, ps: map<string, Entry>,
                         os: map<string, Prototypes.ProtoId>, ss: map<string, nat>) returns (pl: Loader)
      requires Statuses.Valid(cat) && Channels.RootsOf(cat, ss) && BaseKey in ps && ps[BaseKey].plain
      ensures fresh(pl) && pl.Valid() && pl.cat == cat
      ensures pl.prototypes == ps && pl.objects == os && pl.status == ss
      ensures pl.loadedFiles == [] && pl.idList == map[]
    {
      pl := new Loader(cat, base);
      pl.prototypes, pl.objects, pl.status := ps, os, ss;
    }

    /**
     * `Include`: the prototypes, objects and root statuses of `other` are
     * added; with `overwrite` a shared key takes `other`'s entry, except a
     * prototype whose type is PrototypeBase itself; `other`'s files not yet
     * listed are appended in order.
     */
    method Include(other: Loader, overwrite: bool)
      requires Valid() && other.Valid() && other != this && other.cat == cat
      modifies this
      ensures Valid()
      ensures prototypes == Merged(old(prototypes), other.prototypes, overwrite, Plain(other.prototypes))
      ensures objects == Merged(old(objects), other.objects, overwrite, {})
      ensures status == Merged(old(status), other.status, overwrite, {})
      ensures loadedFiles == PrototypeExport.AddNew(old(loadedFiles), other.loadedFiles)
      ensures idList == old(idList)
    {
      MergedUnion(prototypes, other.prototypes, overwrite, Plain(other.prototypes));
      MergedRoots(cat, status, other.status, overwrite);
      PrototypeExport.AddNewMeaning(loadedFiles, other.loadedFiles);
      prototypes := MergeInto(prototypes, other.prototypes, overwrite, Plain(other.prototypes));
      objects := MergeInto(objects, other.objects, overwrite, {});
      status := MergeInto(status, other.status, overwrite, {});
      loadedFiles := AppendNew(loadedFiles, other.loadedFiles);
    }

    /** `RemoteSource := src`, then `Exists := true` when the cast succeeded. */
    static method BindTo(store: Store.CellStore, target: CellId, src: CellId) returns (r: Result<()>)
      requires store.Valid() && target < |store.cells| && src < |store.cells|
      modifies store
      ensures store.Valid() && ReferOutcome(old(store.cells), store.cells, target, src, r)
    {
      r := store.SetRemote(target, Some(src));
      if r.Ok? {
        store.SetPresent(target, true);
      }
    }
  }
}
