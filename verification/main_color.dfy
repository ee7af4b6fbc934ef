/**
 * main.js, `imageDataToRgbStr` and `luminosityOfRgbStr`: a sampled sky pixel
 * is written as a CSS `rgb(r,g,b)` string, read back by matching runs of
 * digits, and weighted by the Rec. 709 luma coefficients to give the
 * brightness of the front sprites.
 */
module MainColor {
  import opened Text
  import opened Utils
  import Rect

  const LumaRed: real := 0.2126
  const LumaGreen: real := 0.7152
  const LumaBlue: real := 0.0722

  /** The first three channels of a canvas `ImageData` sample. */
  datatype Pixel = Pixel(r: nat, g: nat, b: nat)

  /** Channels of a `Uint8ClampedArray`. */
  predicate IsByte(p: Pixel) {
    p.r <= 255 && p.g <= 255 && p.b <= 255
  }

  /** `imageDataToRgbStr(imgData)`: channels in decimal, comma separated. */
  function RgbStr(p: Pixel): (s: string)
    ensures |s| > 4 && s[..4] == "rgb(" && s[|s| - 1] == ')'
  {
    "rgb(" + NatToString(p.r) + "," + NatToString(p.g) + "," + NatToString(p.b) + ")"
  }

  /** Two commas: one between each pair of channels. */
  lemma RgbStrCommas(p: Pixel)
    ensures Count(RgbStr(p), ',') == 2
  {
    var r, g, b := NatToString(p.r), NatToString(p.g), NatToString(p.b);
    Rect.CommaFree(p.r);
    Rect.CommaFree(p.g);
    Rect.CommaFree(p.b);
    CountAppend("rgb(", r, ',');
    CountAppend("rgb(" + r, ",", ',');
    CountAppend("rgb(" + r + ",", g, ',');
    CountAppend("rgb(" + r + "," + g, ",", ',');
    CountAppend("rgb(" + r + "," + g + ",", b, ',');
    CountAppend("rgb(" + r + "," + g + "," + b, ")", ',');
  }

  /** The text's digit runs are the three channels in decimal. */
  lemma RgbStrRuns(p: Pixel)
    ensures DigitRuns(RgbStr(p)) == [NatToString(p.r), NatToString(p.g), NatToString(p.b)]
  {
    ThreeRuns(NatToString(p.r), NatToString(p.g), NatToString(p.b));
  }

  lemma ThreeRuns(r: string, g: string, b: string)
    requires |r| > 0 && AllDigits(r) && |g| > 0 && AllDigits(g) && |b| > 0 && AllDigits(b)
    ensures DigitRuns("rgb(" + r + "," + g + "," + b + ")") == [r, g, b]
  {
    var tailB := ")";
    var tailG := "," + (b + tailB);
    var tailR := "," + (g + tailG);
    var whole := "rgb(" + (r + tailR);
    RgbStrShape(r, g, b);
    assert DigitRuns(tailB) == [] by {
      assert tailB == ")" + "";
      DigitRunsSkip(")", "");
    }
    assert DigitRuns(b + tailB) == [b] by {
      DigitRunsTake(b, tailB);
    }
    assert DigitRuns(g + tailG) == [g, b] by {
      SeparatedRun(g, ",", b + tailB);
    }
    assert DigitRuns(r + tailR) == [r, g, b] by {
      SeparatedRun(r, ",", g + tailG);
    }
    assert DigitRuns(whole) == [r, g, b] by {
      assert NoDigits("rgb(") by {
        assert forall i :: 0 <= i < 4 ==> "rgb("[i] in "rgb(";
      }
      DigitRunsSkip("rgb(", r + tailR);
    }
  }

  /** A digit run behind a separator and before the rest. */
  lemma SeparatedRun(d: string, sep: string, rest: string)
    requires |d| > 0 && AllDigits(d) && |sep| == 1 && !IsDigit(sep[0])
    ensures DigitRuns(d + (sep + rest)) == [d] + DigitRuns(rest)
    ensures DigitRuns(sep + rest) == DigitRuns(rest)
  {
    DigitRunsTake(d, sep + rest);
    DigitRunsSkip(sep, rest);
  }

  lemma RgbStrShape(r: string, g: string, b: string)
    ensures "rgb(" + r + "," + g + "," + b + ")" == "rgb(" + (r + ("," + (g + ("," + (b + ")")))))
  {
  }

  /** `luminosityOfRgbStr(rgbStr)`: the weighted sum of the first three digit
      runs. With fewer than three runs the source computes `NaN` or throws. */
  function Luminosity(s: string): (l: Option<real>)
    ensures l.Some? <==> |DigitRuns(s)| >= 3
  {
    var runs := DigitRuns(s);
    if |runs| < 3 then None
    else Some(LumaRed * DigitsValue(runs[0]) as real + LumaGreen * DigitsValue(runs[1]) as real
              + LumaBlue * DigitsValue(runs[2]) as real)
  }

  /** Writing a pixel and reading it back gives its luma. */
  lemma LuminosityRoundTrip(p: Pixel)
    ensures Luminosity(RgbStr(p)) == Some(LumaRed * p.r as real + LumaGreen * p.g as real + LumaBlue * p.b as real)
  {
    RgbStrRuns(p);
    NatToStringRoundTrip(p.r);
    NatToStringRoundTrip(p.g);
    NatToStringRoundTrip(p.b);
  }

  /** The weights sum to 1, so a byte pixel's luma is at most 255. */
  lemma LumaBounds(p: Pixel)
    ensures var l := LumaRed * p.r as real + LumaGreen * p.g as real + LumaBlue * p.b as real;
      IsByte(p) ==> 0.0 <= l <= 255.0
    ensures p == Pixel(255, 255, 255) ==> LumaRed * p.r as real + LumaGreen * p.g as real + LumaBlue * p.b as real == 255.0
  {
    assert LumaRed + LumaGreen + LumaBlue == 1.0;
  }

  /** `luminosityOfRgbStr(colors[1]) / 255`, the filter brightness. */
  function Brightness(p: Pixel): (v: Option<real>)
    ensures IsByte(p) ==> v.Some? && 0.0 <= v.value <= 1.0
  {
    LuminosityRoundTrip(p);
    LumaBounds(p);
    match Luminosity(RgbStr(p))
    case None => None
    case Some(l) => Some(l / 255.0)
  }
}
