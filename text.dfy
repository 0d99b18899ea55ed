/**
 * The string operations of the .NET base library that the modelled code
 * relies on: decimal printing and parsing of integers, trimming, ASCII case
 * folding, splitting and joining on a separator character.
 */
module Text {
  import opened Wrappers
  import opened CsInt

  predicate IsDigit(c: char) { '0' <= c <= '9' }

  predicate AllDigits(s: string) { forall i :: 0 <= i < |s| ==> IsDigit(s[i]) }

  function DigitValue(c: char): nat
    requires IsDigit(c)
  {
    (c as int) - ('0' as int)
  }

  function DigitChar(d: nat): (c: char)
    requires d < 10
    ensures IsDigit(c) && DigitValue(c) == d
  {
    (('0' as int) + d) as char
  }

  /** Decimal digits of `n`, most significant first, without leading zeros. */
  function NatText(n: nat): (s: string)
    ensures |s| > 0 && AllDigits(s)
    ensures |s| > 1 ==> s[0] != '0'
  {
    if n < 10 then [DigitChar(n)] else NatText(n / 10) + [DigitChar(n % 10)]
  }

  /** The number a string of decimal digits denotes. */
  function DigitsValue(s: string): nat
    requires AllDigits(s)
  {
    if |s| == 0 then 0 else DigitsValue(s[..|s| - 1]) * 10 + DigitValue(s[|s| - 1])
  }

  lemma {:induction false} NatTextValue(n: nat)
    ensures DigitsValue(NatText(n)) == n
  {
    if n >= 10 {
      var s := NatText(n);
      assert s[..|s| - 1] == NatText(n / 10);
      NatTextValue(n / 10);
    }
  }

  /** `Int32.ToString()` and `UInt32.ToString()`: a minus sign, then the digits. */
  function IntText(i: int): (s: string)
    ensures |s| > 0 && (s[0] == '-' || IsDigit(s[0])) && IsDigit(s[|s| - 1])
  {
    if i < 0 then "-" + NatText(-i) else NatText(i)
  }

  /** The blanks .NET number and boolean parsers skip at both ends. */
  predicate IsWhite(c: char) { c == ' ' || '\t' <= c <= '\r' }

  function TrimStart(s: string): string
  {
    if |s| > 0 && IsWhite(s[0]) then TrimStart(s[1..]) else s
  }

  function TrimEnd(s: string): string
  {
    if |s| > 0 && IsWhite(s[|s| - 1]) then TrimEnd(s[..|s| - 1]) else s
  }

  /** `String.Trim()`: both ends stripped of blanks. */
  function Trim(s: string): string
  {
    TrimEnd(TrimStart(s))
  }

  /** Trimming the start leaves a suffix that does not begin with a blank. */
  lemma {:induction false} TrimStartSuffix(s: string)
    ensures var t := TrimStart(s); |t| <= |s| && t == s[|s| - |t|..]
    ensures var t := TrimStart(s); |t| > 0 ==> !IsWhite(t[0])
  {
    if |s| > 0 && IsWhite(s[0]) {
      TrimStartSuffix(s[1..]);
    }
  }

  /** Trimming the end leaves a prefix that does not end with a blank. */
  lemma {:induction false} TrimEndPrefix(s: string)
    ensures var t := TrimEnd(s); |t| <= |s| && t == s[..|t|]
    ensures var t := TrimEnd(s); |t| > 0 ==> !IsWhite(t[|t| - 1])
  {
    if |s| > 0 && IsWhite(s[|s| - 1]) {
      TrimEndPrefix(s[..|s| - 1]);
    }
  }

  /** Trim leaves no blank at either end. */
  lemma TrimEnds(s: string)
    ensures var t := Trim(s); |t| <= |s| && (|t| > 0 ==> !IsWhite(t[0]) && !IsWhite(t[|t| - 1]))
  {
    var u := TrimStart(s);
    TrimStartSuffix(s);
    TrimEndPrefix(u);
    var t := Trim(s);
    if |t| > 0 {
      assert t[0] == u[0];
    }
  }

  lemma TrimUnchanged(s: string)
    requires |s| > 0 && !IsWhite(s[0]) && !IsWhite(s[|s| - 1])
    ensures Trim(s) == s
  {
  }

  /**
   * The number style both `int.TryParse` and `uint.Parse` accept by default:
   * optional blanks, an optional sign, decimal digits, optional blanks.
   * The value is returned unbounded; the callers check its range.
   */
  function ParseSigned(s: string): Option<int>
  {
    var t := Trim(s);
    if |t| == 0 then None
    else
      var body := if t[0] == '-' || t[0] == '+' then t[1..] else t;
      if |body| == 0 || !AllDigits(body) then None
      else if t[0] == '-' then Some(-(DigitsValue(body) as int))
      else Some(DigitsValue(body))
  }

  lemma {:induction false} ParseSignedText(i: int)
    ensures ParseSigned(IntText(i)) == Some(i)
  {
    var s := IntText(i);
    TrimUnchanged(s);
    if i < 0 {
      assert s[1..] == NatText(-i);
      NatTextValue(-i);
    } else {
      NatTextValue(i);
    }
  }

  /** `int.TryParse`: the signed number style, and a value inside the int range. */
  function ParseInt(s: string): Option<int>
  {
    var v := ParseSigned(s);
    if v.Some? && IsInt(v.value) then v else None
  }

  /** `int.TryParse` succeeds exactly on the signed-style texts whose value is an int. */
  lemma ParseIntRange(s: string)
    ensures ParseInt(s).Some? <==> ParseSigned(s).Some? && IsInt(ParseSigned(s).value)
    ensures ParseInt(s).Some? ==> ParseInt(s) == ParseSigned(s)
  {
  }

  /** Printing an int and parsing the text back gives the same int. */
  lemma ParseIntText(i: int)
    requires IsInt(i)
    ensures ParseInt(IntText(i)) == Some(i)
  {
    ParseSignedText(i);
  }

  /**
   * `uint.Parse`: a FormatException for text outside the number style, an
   * OverflowException for a value outside the uint range (so "-0" is zero).
   */
  function ParseUInt(s: string): (r: Result<int>)
    ensures r.Ok? ==> IsUInt(r.value) && ParseSigned(s) == Some(r.value)
    ensures r == Fail(Format) <==> ParseSigned(s).None?
  {
    var v := ParseSigned(s);
    if v.None? then Fail(Format) else if IsUInt(v.value) then Ok(v.value) else Fail(Overflow)
  }

  lemma ParseUIntText(n: int)
    requires IsUInt(n)
    ensures ParseUInt(IntText(n)) == Ok(n)
  {
    ParseSignedText(n);
  }

  /** Invariant-culture upper-to-lower case mapping, restricted to ASCII. */
  function Lower(c: char): char
  {
    if 'A' <= c <= 'Z' then ((c as int) + 32) as char else c
  }

  function LowerText(s: string): (t: string)
    ensures |t| == |s| && forall i :: 0 <= i < |s| ==> t[i] == Lower(s[i])
  {
    if |s| == 0 then [] else [Lower(s[0])] + LowerText(s[1..])
  }

  /** Ordinal comparison that ignores (ASCII) case. */
  predicate EqualsIgnoreCase(a: string, b: string)
  {
    LowerText(a) == LowerText(b)
  }

  predicate EndsWith(s: string, suffix: string)
  {
    |suffix| <= |s| && s[|s| - |suffix|..] == suffix
  }

  /** `String.Replace(char, char)`. */
  function ReplaceChar(s: string, from: char, to: char): (t: string)
    ensures |t| == |s|
    ensures forall i :: 0 <= i < |s| ==> t[i] == (if s[i] == from then to else s[i])
  {
    if |s| == 0 then [] else [if s[0] == from then to else s[0]] + ReplaceChar(s[1..], from, to)
  }

  function IndexOf(s: string, c: char): (k: nat)
    requires c in s
    ensures k < |s| && s[k] == c && c !in s[..k]
  {
    if s[0] == c then 0 else 1 + IndexOf(s[1..], c)
  }

  /** `String.Split(char)`: k separators give k + 1 parts, empty parts kept. */
  function Split(s: string, sep: char): (parts: seq<string>)
    ensures |parts| > 0
    ensures forall i :: 0 <= i < |parts| ==> sep !in parts[i]
    decreases |s|
  {
    if sep !in s then [s]
    else
      var k := IndexOf(s, sep);
      [s[..k]] + Split(s[k + 1..], sep)
  }

  /** `String.Join(char, parts)`. */
  function Join(parts: seq<string>, sep: char): string
    requires |parts| > 0
  {
    if |parts| == 1 then parts[0] else parts[0] + [sep] + Join(parts[1..], sep)
  }

  /** Splitting a join gives back the parts, provided no part holds the separator. */
  lemma {:induction false} SplitJoin(parts: seq<string>, sep: char)
    requires |parts| > 0
    requires forall i :: 0 <= i < |parts| ==> sep !in parts[i]
    ensures Split(Join(parts, sep), sep) == parts
  {
    if |parts| > 1 {
      var s := Join(parts, sep);
      var rest := Join(parts[1..], sep);
      assert s == parts[0] + [sep] + rest;
      assert s[|parts[0]|] == sep;
      assert s[..|parts[0]|] == parts[0];
      assert IndexOf(s, sep) == |parts[0]|;
      assert s[|parts[0]| + 1..] == rest;
      SplitJoin(parts[1..], sep);
    }
  }

  /** Joining the parts of a split gives back the text. */
  lemma {:induction false} JoinSplit(s: string, sep: char)
    ensures Join(Split(s, sep), sep) == s
    decreases |s|
  {
    if sep in s {
      var k := IndexOf(s, sep);
      JoinSplit(s[k + 1..], sep);
      assert s == s[..k] + [sep] + s[k + 1..];
    }
  }

  /**
   * `bool.TryParse`: "True" or "False" in any letter case, with blanks
   * around allowed.
   */
  function ParseBool(s: string): Option<bool>
  {
    var t := Trim(s);
    if EqualsIgnoreCase(t, "true") then Some(true)
    else if EqualsIgnoreCase(t, "false") then Some(false)
    else None
  }

  /** "True" and "False", as `bool.ToString()` prints them, parse back. */
  lemma ParseBoolText(b: bool)
    ensures ParseBool(if b then "True" else "False") == Some(b)
  {
    var s := if b then "True" else "False";
    TrimUnchanged(s);
    assert LowerText(s) == if b then "true" else "false";
    if !b {
      assert LowerText("false") != LowerText("true");
    }
  }
}
