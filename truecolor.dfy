/**
 * `query_rgb`: TrueColor support from the terminfo `RGB` flag, falling back
 * to the de-facto `COLORTERM` convention.
 */
module TrueColor {
  import opened Wrappers

  /**
   * `rgbFlag` is what `tigetflag("RGB")` answered; `colorterm` is
   * `getenv("COLORTERM")`, None when the variable is unset.
   */
  function QueryRgb(rgbFlag: int, colorterm: Option<string>): (r: bool)
    ensures rgbFlag == 1 ==> r
    ensures colorterm.None? ==> (r <==> rgbFlag == 1)
    ensures r ==> rgbFlag == 1 || colorterm in {Some("truecolor"), Some("24bit")}
  {
    rgbFlag == 1 || (colorterm.Some? && (colorterm.value == "truecolor" || colorterm.value == "24bit"))
  }

  /** A set RGB flag decides alone, whatever the environment says. */
  lemma FlagWins(colorterm: Option<string>)
    ensures QueryRgb(1, colorterm)
  {
  }

  /**
   * Without the flag (0 or -1 alike) the answer is true exactly for the two
   * literal values, compared case-sensitively and in full.
   */
  lemma ExactFallback(rgbFlag: int, colorterm: Option<string>)
    requires rgbFlag != 1
    ensures QueryRgb(rgbFlag, colorterm) <==> colorterm == Some("truecolor") || colorterm == Some("24bit")
  {
  }

  /** Wrong case, a longer value or a bare prefix of a literal gives false. */
  lemma NoLooseMatch(rgbFlag: int, v: string)
    requires rgbFlag != 1
    requires v == "TRUECOLOR" || v == "truecolors" || v == "24" || v == "xterm-truecolor"
    ensures !QueryRgb(rgbFlag, Some(v))
  {
  }

  /** An unset variable without the flag means no TrueColor. */
  lemma UnsetMeansNo(rgbFlag: int)
    requires rgbFlag != 1
    ensures !QueryRgb(rgbFlag, None)
  {
  }
}
