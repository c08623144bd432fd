/**
 * The colour sampling of the content script (content.ts, setImageCanvas and
 * setImageData): where in the screenshot the pixel under the pointer is cut
 * from, how the RGBA data read back from the canvas is averaged, and the
 * readout shown for it.
 *
 * Canvas drawing and reading are host calls; the pixel data they return is a
 * parameter here.
 */
module Sampler {
  import opened Wrappers
  import opened Text
  import Utilities

  // ---------------------------------------------------------------------------
  // Where the sample is cut from

  /**
   * The left (or top) edge of the one-pixel crop for a pointer coordinate:
   * the coordinate scaled from the viewport to the screenshot, moved back by
   * half the crop, and clamped at 0. The crop always covers the scaled point,
   * and is centred on it unless that would start before the image.
   */
  function CropOffset(coord: real, imageSize: real, viewportSize: real): (offset: real)
    requires viewportSize > 0.0
    ensures offset >= 0.0
    ensures var p := coord * (imageSize / viewportSize);
      p >= 0.0 ==> offset <= p < offset + 1.0
    ensures var p := coord * (imageSize / viewportSize);
      p >= 0.5 ==> offset + 0.5 == p
    ensures var p := coord * (imageSize / viewportSize);
      p < 0.5 ==> offset == 0.0
  {
    var ratio := imageSize / viewportSize;
    var cropSize := 1.0;
    var offset := coord * ratio - cropSize / 2.0;
    if offset < 0.0 then 0.0 else offset
  }

  /** A pointer further right or down never samples further left or up. */
  lemma CropOffsetMonotone(x: real, x': real, imageSize: real, viewportSize: real)
    requires viewportSize > 0.0 && imageSize >= 0.0
    requires x <= x'
    ensures CropOffset(x, imageSize, viewportSize) <= CropOffset(x', imageSize, viewportSize)
  {
    var ratio := imageSize / viewportSize;
    assert ratio >= 0.0;
    assert x * ratio <= x' * ratio by {
      assert (x' - x) * ratio >= 0.0;
    }
  }

  // ---------------------------------------------------------------------------
  // Averaging

  /** Math.ceil(s / n) for a positive count n. */
  function CeilDiv(s: int, n: int): (q: int)
    requires n > 0
    ensures n * (q - 1) < s <= n * q
  {
    var m := -s;
    var d := m / n;
    assert m == n * d + m % n;
    -d
  }

  /**
   * The sum of one channel (0 red, 1 green, 2 blue, 3 alpha) over the whole
   * pixels of flat RGBA data.
   */
  function ChannelSum(data: seq<int>, channel: nat): int
    requires channel < 4
    decreases |data|
  {
    if |data| < 4 then 0
    else ChannelSum(data[..|data| - 4], channel) + data[|data| - 4 + channel]
  }

  /** Whole pixels of flat RGBA data. */
  predicate IsPixelData(data: seq<int>) {
    |data| >= 4 && |data| % 4 == 0
  }

  /** Every value of one channel lies between lo and hi. */
  predicate ChannelWithin(data: seq<int>, channel: nat, lo: int, hi: int)
    requires channel < 4
  {
    forall k :: 0 <= k < |data| / 4 ==> lo <= data[4 * k + channel] <= hi
  }

  datatype Rgba = Rgba(r: int, g: int, b: int, a: int)

  /** The average of each channel, rounded up. */
  function Average(data: seq<int>): Rgba
    requires IsPixelData(data)
  {
    var pixels := |data| / 4;
    Rgba(CeilDiv(ChannelSum(data, 0), pixels), CeilDiv(ChannelSum(data, 1), pixels),
         CeilDiv(ChannelSum(data, 2), pixels), CeilDiv(ChannelSum(data, 3), pixels))
  }

  lemma {:induction false} ChannelSumBounds(data: seq<int>, channel: nat, lo: int, hi: int)
    requires channel < 4 && |data| % 4 == 0
    requires ChannelWithin(data, channel, lo, hi)
    ensures (|data| / 4) * lo <= ChannelSum(data, channel) <= (|data| / 4) * hi
    decreases |data|
  {
    if |data| >= 4 {
      var n := |data| / 4;
      var init := data[..|data| - 4];
      assert |init| / 4 == n - 1;
      forall k | 0 <= k < n - 1 ensures lo <= init[4 * k + channel] <= hi {
        assert init[4 * k + channel] == data[4 * k + channel];
      }
      ChannelSumBounds(init, channel, lo, hi);
      assert 4 * (n - 1) + channel == |data| - 4 + channel;
      MulPred(n, lo);
      MulPred(n, hi);
    }
  }

  lemma MulPred(n: int, x: int)
    ensures n * x == (n - 1) * x + x
  {
  }

  /** Each averaged channel lies between the smallest and the largest value averaged. */
  lemma AverageBetweenExtremes(data: seq<int>, channel: nat, lo: int, hi: int)
    requires IsPixelData(data) && channel < 4
    requires ChannelWithin(data, channel, lo, hi)
    ensures var q := CeilDiv(ChannelSum(data, channel), |data| / 4);
      lo <= q <= hi
  {
    var n := |data| / 4;
    var s := ChannelSum(data, channel);
    ChannelSumBounds(data, channel, lo, hi);
    var q := CeilDiv(s, n);
    ScaleCancel(n, lo, q);
    ScaleCancel(n, q - 1, hi);
  }

  lemma ScaleCancel(n: int, x: int, y: int)
    requires n > 0 && n * x <= n * y + n - 1
    ensures x <= y
  {
    assert n * (x - y) == n * x - n * y;
    MulAtLeast(n, x - y);
  }

  lemma {:induction false} MulAtLeast(n: int, k: int)
    requires n > 0
    ensures k >= 1 ==> n * k >= n
    decreases if k > 0 then k else 0
  {
    if k > 1 {
      MulAtLeast(n, k - 1);
      assert n * k == n * (k - 1) + n;
    }
  }

  /** Sampling an area of one colour gives back that colour. */
  lemma UniformAreaAverage(data: seq<int>, px: Rgba)
    requires IsPixelData(data)
    requires forall k :: 0 <= k < |data| / 4 ==>
      data[4 * k] == px.r && data[4 * k + 1] == px.g && data[4 * k + 2] == px.b && data[4 * k + 3] == px.a
    ensures Average(data) == px
  {
    AverageBetweenExtremes(data, 0, px.r, px.r);
    AverageBetweenExtremes(data, 1, px.g, px.g);
    AverageBetweenExtremes(data, 2, px.b, px.b);
    AverageBetweenExtremes(data, 3, px.a, px.a);
  }

  /**
   * The summing loop of setImageData: four entries, one pixel, per step,
   * then each channel sum divided by the pixel count and rounded up.
   */
  method AverageRgba(data: array<int>) returns (avg: Rgba)
    requires IsPixelData(data[..])
    ensures avg == Average(data[..])
  {
    var sumR, sumG, sumB, sumA := 0, 0, 0, 0;
    var i := 0;
    while i < data.Length
      invariant 0 <= i <= data.Length && i % 4 == 0
      invariant sumR == ChannelSum(data[..i], 0) && sumG == ChannelSum(data[..i], 1)
      invariant sumB == ChannelSum(data[..i], 2) && sumA == ChannelSum(data[..i], 3)
    {
      assert data[..i + 4][..i] == data[..i];
      sumR := sumR + data[i];
      sumG := sumG + data[i + 1];
      sumB := sumB + data[i + 2];
      sumA := sumA + data[i + 3];
      i := i + 4;
    }
    assert data[..i] == data[..];
    var pixels := data.Length / 4;
    avg := Rgba(CeilDiv(sumR, pixels), CeilDiv(sumG, pixels), CeilDiv(sumB, pixels), CeilDiv(sumA, pixels));
  }

  // ---------------------------------------------------------------------------
  // The readout

  /** The hex code shown for the averaged colour: RGBAtoHex without alpha, upper-cased. */
  function DisplayedHex(r: int, g: int, b: int): string {
    Upper(Utilities.RgbaToHex(r, g, b, None))
  }

  lemma HexDigitValueIgnoresCase(c: char)
    ensures HexDigitValue(ToUpperChar(c)) == HexDigitValue(c)
  {
  }

  lemma ParseHexPairIgnoresCase(x: char, y: char)
    ensures Utilities.ParseHexPair(ToUpperChar(x), ToUpperChar(y)) == Utilities.ParseHexPair(x, y)
  {
    HexDigitValueIgnoresCase(x);
    HexDigitValueIgnoresCase(y);
  }

  /** Reading a hex code back does not depend on the case of its letters. */
  lemma HexToRgbIgnoresCase(h: string)
    ensures Utilities.HexToRgb(Upper(h)) == Utilities.HexToRgb(h)
  {
    var u := Upper(h);
    var d, e := Utilities.HexDigits(h), Utilities.HexDigits(u);
    assert |h| > 0 ==> (u[0] == '#' <==> h[0] == '#');
    assert |e| == |d| && forall i :: 0 <= i < |d| ==> e[i] == ToUpperChar(d[i]);
    if |d| == 3 {
      ParseHexPairIgnoresCase(d[0], d[0]);
      ParseHexPairIgnoresCase(d[1], d[1]);
      ParseHexPairIgnoresCase(d[2], d[2]);
    } else if |d| == 6 {
      ParseHexPairIgnoresCase(d[0], d[1]);
      ParseHexPairIgnoresCase(d[2], d[3]);
      ParseHexPairIgnoresCase(d[4], d[5]);
    }
  }

  /** The upper-cased hex shown for a colour reads back as that colour. */
  lemma DisplayedHexReadsBack(r: nat, g: nat, b: nat)
    requires r < 256 && g < 256 && b < 256
    ensures |DisplayedHex(r, g, b)| == 7 && DisplayedHex(r, g, b)[0] == '#'
    ensures NoLower(DisplayedHex(r, g, b))
    ensures Utilities.HexToRgb(DisplayedHex(r, g, b)) == Utilities.RgbOf(r, g, b)
  {
    var lower := Utilities.RgbaToHex(r, g, b, None);
    Utilities.OpaqueHexIsBytes(r, g, b);
    Utilities.RgbHexRoundTrip(r, g, b, None);
    HexToRgbIgnoresCase(lower);
    UpperHasNoLower(lower);
    assert lower[0] == '#';
    assert DisplayedHex(r, g, b)[0] == ToUpperChar(lower[0]);
  }

  lemma UpperHasNoLower(s: string)
    ensures NoLower(Upper(s))
  {
    forall i | 0 <= i < |s| ensures !IsLower(Upper(s)[i]) {
      assert Upper(s)[i] == ToUpperChar(s[i]);
    }
  }

  /** What setImageData shows: the averaged channels, the alpha and the hex code. */
  datatype Readout = Readout(r: int, g: int, b: int, alpha: real, hex: string)

  /**
   * The alpha as the averaging step intends it, a fraction of 255 between 0
   * and 1.
   */
  function ShownAlpha(a: int): (alpha: real)
    ensures 0 <= a <= 255 ==> 0.0 <= alpha <= 1.0
    ensures a == 255 ==> alpha == 1.0
  {
    a as real / 255.0
  }

  /**
   * The alpha as the statement that should scale it leaves it: the division
   * by 255 is computed and thrown away, so the average itself is shown.
   */
  function AlphaAsWritten(a: int): real {
    a as real
  }

  /** The alpha shown is 255 times the alpha intended. */
  lemma AlphaShownUnscaled(a: int)
    ensures AlphaAsWritten(a) == 255.0 * ShownAlpha(a)
    ensures 0 <= a <= 255 ==> 0.0 <= AlphaAsWritten(a) <= 255.0
  {
  }

  /** One fully opaque black pixel: the code shows an alpha of 255 where 1 is intended. */
  lemma OpaquePixelAlpha(data: seq<int>)
    requires |data| == 4 && data[0] == 0 && data[1] == 0 && data[2] == 0 && data[3] == 255
    ensures Average(data).a == 255
    ensures AlphaAsWritten(Average(data).a) == 255.0
    ensures ShownAlpha(Average(data).a) == 1.0
  {
    UniformAreaAverage(data, Rgba(0, 0, 0, 255));
  }

  /**
   * The canvas is read without an alpha channel, so every pixel it returns is
   * opaque; the readout then shows an alpha of 255 whatever the colours.
   */
  lemma OpaqueCanvasShowsFullAlpha(data: seq<int>)
    requires IsPixelData(data)
    requires ChannelWithin(data, 3, 255, 255)
    ensures ReadoutOf(Average(data)).alpha == 255.0
  {
    AverageBetweenExtremes(data, 3, 255, 255);
  }

  /** The readout as the code shows it: the alpha average unscaled. */
  function ReadoutOf(avg: Rgba): Readout {
    Readout(avg.r, avg.g, avg.b, AlphaAsWritten(avg.a), DisplayedHex(avg.r, avg.g, avg.b))
  }

  /**
   * setImageData: nothing without pixel data; otherwise the channel averages
   * of the data, each a byte when the data is, the alpha average shown as the
   * 0..255 number it is, and a hex code that reads back as the averaged colour.
   */
  method SetImageData(data: array?<int>) returns (readout: Option<Readout>)
    requires data != null ==> IsPixelData(data[..])
    requires data != null ==> forall i :: 0 <= i < data.Length ==> 0 <= data[i] <= 255
    ensures data == null <==> readout.None?
    ensures data != null ==> readout == Some(ReadoutOf(Average(data[..])))
    ensures readout.Some? ==>
      var o := readout.value;
      && 0 <= o.r <= 255 && 0 <= o.g <= 255 && 0 <= o.b <= 255 && 0.0 <= o.alpha <= 255.0
      && o.alpha == Average(data[..]).a as real
      && Utilities.HexToRgb(o.hex) == Utilities.RgbOf(o.r, o.g, o.b)
  {
    if data == null {
      return None;
    }
    var avg := AverageRgba(data);
    forall channel: nat | channel < 4 ensures ChannelWithin(data[..], channel, 0, 255) {
      forall k | 0 <= k < data.Length / 4 ensures 0 <= data[4 * k + channel] <= 255 { }
    }
    AverageBetweenExtremes(data[..], 0, 0, 255);
    AverageBetweenExtremes(data[..], 1, 0, 255);
    AverageBetweenExtremes(data[..], 2, 0, 255);
    AverageBetweenExtremes(data[..], 3, 0, 255);
    DisplayedHexReadsBack(avg.r, avg.g, avg.b);
    readout := Some(ReadoutOf(avg));
  }
}
