/**
 * `interpretSonneneinstrahlung` (client/Garten.js): the irradiance in kW of a day, described by a
 * tier name followed by the value.
 */
module Garten {
  import opened Text

  datatype Tier = Schwach | Maessig | Gut | SehrGut | Extrem

  function Label(t: Tier): string
  {
    match t
    case Schwach => "schwach"
    case Maessig => "mäßig"
    case Gut => "gut"
    case SehrGut => "sehr gut"
    case Extrem => "extrem"
  }

  /** The range of kW each tier covers. */
  predicate InTier(kw: int, t: Tier)
  {
    match t
    case Schwach => kw <= 4
    case Maessig => 4 < kw <= 8
    case Gut => 8 < kw <= 10
    case SehrGut => 10 < kw <= 12
    case Extrem => 12 < kw
  }

  /** `` (${kw} kW)``. */
  function Suffix(kw: int): string
  {
    " (" + IntToString(kw) + " kW)"
  }

  /** The chain of guarded returns. */
  function Interpret(kw: int): (r: string)
    ensures exists t :: InTier(kw, t) && r == Label(t) + Suffix(kw)
  {
    if kw <= 4 then
      assert InTier(kw, Schwach);
      "schwach" + Suffix(kw)
    else if kw <= 8 then
      assert InTier(kw, Maessig);
      "mäßig" + Suffix(kw)
    else if kw <= 10 then
      assert InTier(kw, Gut);
      "gut" + Suffix(kw)
    else if kw <= 12 then
      assert InTier(kw, SehrGut);
      "sehr gut" + Suffix(kw)
    else
      assert InTier(kw, Extrem);
      "extrem" + Suffix(kw)
  }

  /** Exactly one tier applies to any value. */
  lemma OneTier(kw: int, t1: Tier, t2: Tier)
    requires InTier(kw, t1) && InTier(kw, t2)
    ensures t1 == t2
  {
  }

  /** Every description ends in the value and its unit, and starts with the tier's name. */
  lemma InterpretTier(kw: int, t: Tier)
    requires InTier(kw, t)
    ensures Interpret(kw) == Label(t) + Suffix(kw)
    ensures |Interpret(kw)| >= |Suffix(kw)| && Interpret(kw)[|Interpret(kw)| - |Suffix(kw)|..] == Suffix(kw)
  {
    var t' :| InTier(kw, t') && Interpret(kw) == Label(t') + Suffix(kw);
    OneTier(kw, t, t');
    var r := Interpret(kw);
    assert r[|r| - |Suffix(kw)|..] == Suffix(kw);
  }
}
