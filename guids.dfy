/**
  System.Guid as 32 hexadecimal digits, its "B" rendering
  "{xxxxxxxx-xxxx-xxxx-xxxx-xxxxxxxxxxxx}" in lower case, and a source of
  new GUIDs standing in for Guid.NewGuid.
*/
module Guids {
  import opened Text

  newtype Nibble = x: int | 0 <= x < 16

  type Guid = digits: seq<Nibble> | |digits| == 32 witness seq(32, i => 0 as Nibble)

  /** Guid.Empty. */
  const EmptyGuid: Guid := seq(32, i => 0 as Nibble)

  function HexLower(n: Nibble): char {
    "0123456789abcdef"[n]
  }

  /** The rendering position of digit k: after the brace and the dashes before it. */
  function Position(k: nat): nat
    requires k < 32
  {
    k + 1 + (if k >= 8 then 1 else 0) + (if k >= 12 then 1 else 0)
      + (if k >= 16 then 1 else 0) + (if k >= 20 then 1 else 0)
  }

  predicate IsDashPosition(i: int) {
    i == 9 || i == 14 || i == 19 || i == 24
  }

  /** Which digit is shown at rendering position i (for a position that shows one). */
  function DigitAt(i: nat): nat
    requires 0 < i < 37 && !IsDashPosition(i)
  {
    i - 1 - (if i > 9 then 1 else 0) - (if i > 14 then 1 else 0)
      - (if i > 19 then 1 else 0) - (if i > 24 then 1 else 0)
  }

  /** Guid.ToString("B"). */
  function FormatB(g: Guid): (r: string)
    ensures |r| == 38
    ensures forall k :: 0 <= k < 32 ==> r[Position(k)] == HexLower(g[k])
  {
    var r := seq(38, i requires 0 <= i < 38 =>
      if i == 0 then '{'
      else if i == 37 then '}'
      else if IsDashPosition(i) then '-'
      else HexLower(g[DigitAt(i)]));
    assert forall k :: 0 <= k < 32 ==> DigitAt(Position(k)) == k;
    r
  }

  /** Reads a hexadecimal digit back, either case. */
  function NibbleOf(c: char): int {
    if '0' <= c <= '9' then c as int - '0' as int
    else if 'a' <= c <= 'f' then c as int - 'a' as int + 10
    else if 'A' <= c <= 'F' then c as int - 'A' as int + 10
    else -1
  }

  lemma NibbleRoundTrip(n: Nibble)
    ensures NibbleOf(HexLower(n)) == n as int
    ensures NibbleOf(UpperChar(HexLower(n))) == n as int
  {
  }

  /** Distinct GUIDs render differently, so a GUID-keyed table may be keyed by the rendering. */
  lemma FormatBInjective(a: Guid, b: Guid)
    requires FormatB(a) == FormatB(b)
    ensures a == b
  {
    forall k | 0 <= k < 32
      ensures a[k] == b[k]
    {
      NibbleRoundTrip(a[k]);
      NibbleRoundTrip(b[k]);
      assert FormatB(a)[Position(k)] == FormatB(b)[Position(k)];
    }
  }

  /** The upper-case rendering that project GUIDs use is injective too. */
  lemma UpperFormatBInjective(a: Guid, b: Guid)
    requires Upper(FormatB(a)) == Upper(FormatB(b))
    ensures a == b
  {
    forall k | 0 <= k < 32
      ensures a[k] == b[k]
    {
      NibbleRoundTrip(a[k]);
      NibbleRoundTrip(b[k]);
      assert Upper(FormatB(a))[Position(k)] == Upper(FormatB(b))[Position(k)];
    }
  }

  /**
    The supply of new GUIDs: the n-th call of NewGuid yields generate(n).
    The model does not rely on the values being distinct.
  */
  class GuidSource {
    const generate: nat -> Guid
    var issued: nat

    constructor(generate: nat -> Guid)
      ensures this.generate == generate && issued == 0
    {
      this.generate := generate;
      issued := 0;
    }

    method NewGuid() returns (g: Guid)
      modifies this`issued
      ensures g == generate(old(issued)) && issued == old(issued) + 1
    {
      g := generate(issued);
      issued := issued + 1;
    }
  }
}
