/** The indentation arrow used to show nesting in the Markdown report. */
module AsciiArrow {
  import opened Strings

  /** The multiplier every arrow uses unless it was reconfigured. */
  const DefaultMultiplier: nat := 2

  /** `AsciiArrow(nestingLevel).toString()` for a given multiplier. */
  function ArrowWith(nestingLevel: int, multiplier: nat): (r: string)
    ensures nestingLevel <= 0 ==> r == ""
    ensures nestingLevel > 0 ==> |r| == nestingLevel * multiplier + 1
    ensures nestingLevel > 0 ==> r[|r| - 1] == '>'
    ensures forall i :: 0 <= i < |r| - 1 ==> r[i] == '-'
  {
    if nestingLevel <= 0 then "" else Repeat('-', nestingLevel * multiplier) + ">"
  }

  /** The arrow with the default multiplier. */
  function Arrow(nestingLevel: int): string {
    ArrowWith(nestingLevel, DefaultMultiplier)
  }

  /** A positive level gives two dashes per level and one `>`; level 3 gives "------>". */
  lemma ArrowDefaultShape(nestingLevel: int)
    ensures nestingLevel <= 0 ==> Arrow(nestingLevel) == ""
    ensures nestingLevel > 0 ==> |Arrow(nestingLevel)| == 2 * nestingLevel + 1
    ensures Arrow(3) == "------>"
  {
    assert Arrow(3) == Repeat('-', 6) + ">";
  }

  /** Deeper nesting never gives a shorter arrow. */
  lemma {:induction false} ArrowMonotone(m: int, n: int, multiplier: nat)
    requires 0 < m <= n
    ensures |ArrowWith(m, multiplier)| <= |ArrowWith(n, multiplier)|
  {
    assert m * multiplier <= n * multiplier by {
      assert (n - m) * multiplier >= 0;
    }
  }
}
