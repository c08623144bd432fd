/**
 * The JavaScript utilities (utilities.js) where they differ from the
 * TypeScript ones. Its string helpers, display builders and HSV describer
 * are the same code as in utilities.ts and are modelled once, in Utilities.
 */
module LegacyUtilities {
  import opened Wrappers
  import opened Text
  import Utilities

  /**
   * RGBAtoHex as written in utilities.js: the alpha byte is computed whenever
   * `a` is given, but the statement meant to append it discards its value,
   * so the result is always '#' and the three colour bytes.
   */
  function RgbaToHex(r: int, g: int, b: int, a: Option<real>): (hex: string)
    ensures 0 <= r < 256 && 0 <= g < 256 && 0 <= b < 256 ==>
      hex == "#" + Utilities.Byte(r) + Utilities.Byte(g) + Utilities.Byte(b)
  {
    var rHex := Utilities.Pad2(IntToHex(r));
    var gHex := Utilities.Pad2(IntToHex(g));
    var bHex := Utilities.Pad2(IntToHex(b));
    // `a != null ? Math.round(a * 255).toString(16) : null`, padded; then lost
    var aHex: Option<string> := if a.Some? then Some(Utilities.AlphaHex(a.value)) else None;
    var hex := "#" + rHex + gHex + bHex;
    if 0 <= r < 256 && 0 <= g < 256 && 0 <= b < 256 then
      Utilities.PaddedHexIsByte(r);
      Utilities.PaddedHexIsByte(g);
      Utilities.PaddedHexIsByte(b);
      hex
    else
      hex
  }

  /** The alpha argument has no effect on the JavaScript result. */
  lemma AlphaIgnored(r: int, g: int, b: int, a: Option<real>)
    ensures RgbaToHex(r, g, b, a) == RgbaToHex(r, g, b, None)
  {
  }

  /**
   * Half-transparent red: the JavaScript version writes "#ff0000" where the
   * TypeScript version, which appends the alpha byte, writes "#ff000080".
   */
  lemma HalfTransparentRedLosesAlpha()
    ensures RgbaToHex(255, 0, 0, Some(0.5)) == "#ff0000"
    ensures Utilities.RgbaToHex(255, 0, 0, Some(0.5)) == "#ff000080"
  {
    assert Utilities.Byte(255) == "ff";
    assert Utilities.Byte(0) == "00";
    assert Utilities.Round(0.5 * 255.0) == 128;
    assert IntToHex(128) == "80" by {
      assert HexDigit(8) == '8' && HexDigit(0) == '0';
    }
    var hex := Utilities.RgbaToHex(255, 0, 0, Some(0.5));
    assert hex == hex[..7] + hex[7..];
  }
}
