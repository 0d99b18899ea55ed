/** How often an effect repeats: a uint count with two reserved values. */
module Repeats {
  import opened Wrappers
  import opened CsInt
  import opened Text

  /** `times` is a uint; 0 means "none" and uint.MaxValue means "infinite". */
  datatype RepeatMode = RepeatMode(times: int)
  {
    predicate Valid() { IsUInt(times) }
    predicate Infinite() { times == MaxUInt }
    predicate None() { times == 0 }
  }

  /**
   * Assigning the Infinite property stores uint.MaxValue whatever boolean is
   * assigned, so even `Infinite = false` makes the mode infinite.
   */
  function SetInfinite(r: RepeatMode, value: bool): (s: RepeatMode)
    ensures s.Valid() && s.Infinite() && !s.None()
  {
    RepeatMode(MaxUInt)
  }

  /** Assigning the None property stores 0 whatever boolean is assigned. */
  function SetNone(r: RepeatMode, value: bool): (s: RepeatMode)
    ensures s.Valid() && s.None() && !s.Infinite()
  {
    RepeatMode(0)
  }

  /** The printed form: "none", "infinite", or the decimal count. */
  function ToText(r: RepeatMode): (s: string)
    ensures r.None() <==> s == "none"
    ensures !r.None() ==> (r.Infinite() <==> s == "infinite")
  {
    if r.None() then "none" else if r.Infinite() then "infinite" else IntText(r.times)
  }

  /**
   * The loader's converter for Repeat parameters: "none" and "infinite" by
   * name, any other text through uint.Parse (which may throw).
   */
  function Parse(t: string): (r: Result<RepeatMode>)
    ensures t == "none" ==> r == Ok(RepeatMode(0))
    ensures t == "infinite" ==> r == Ok(RepeatMode(MaxUInt))
    ensures r.Ok? ==> r.value.Valid()
  {
    if t == "none" then Ok(RepeatMode(0))
    else if t == "infinite" then Ok(RepeatMode(MaxUInt))
    else match ParseUInt(t)
      case Ok(n) => Ok(RepeatMode(n))
      case Fail(f) => Fail(f)
  }

  /** Every repeat mode survives printing and parsing back. */
  lemma ParseToText(r: RepeatMode)
    requires r.Valid()
    ensures Parse(ToText(r)) == Ok(r)
  {
    if !r.None() && !r.Infinite() {
      var s := IntText(r.times);
      assert s[0] != 'n' && s[0] != 'i';
      ParseUIntText(r.times);
    }
  }
}
