/**
  The frame classifier: a fixed 120 x 120 window centred on an RGBA frame is
  scanned, the pixels that pass a skin-tone test are counted, and the count
  divided by the unclipped window area is thresholded into a gesture label.
 */
module Frame {
  import opened Game

  /** One channel value of a canvas pixel buffer. */
  type Byte = x: int | 0 <= x < 256

  /** Half the side of the sampling window. */
  const SampleRadius: int := 60

  /** The area of the unclipped window, (2 * 60)^2; the skin ratio is always
      taken over this many pixels, even when the window sticks out of the frame. */
  const TotalSampledPixels: int := (SampleRadius * 2) * (SampleRadius * 2)

  /** The classifier's answer: no hand, or the move the hand is taken to show. */
  datatype Label = Unknown | Gesture(choice: Choice)

  /** Position of a label in the order unknown < scissors < rock < paper, the
      order of growing skin ratio. */
  function Rank(l: Label): nat
  {
    match l
    case Unknown => 0
    case Gesture(Scissors) => 1
    case Gesture(Rock) => 2
    case Gesture(Paper) => 3
  }

  /** The skin-tone heuristic on the red, green and blue values of a pixel. */
  predicate IsSkin(r: int, g: int, b: int)
  {
    r > 50 && g > 40 && b > 30 && r > b && g > b && r < 220 && g < 200 && b < 180
  }

  /** (x, y) is a pixel of a width x height frame. */
  predicate InFrame(width: int, height: int, x: int, y: int)
  {
    0 <= x < width && 0 <= y < height
  }

  /** The row-major pixel number of an in-frame pixel is a whole pixel of a
      buffer of width * height * 4 channel values: all four of its channels,
      the last at offset pixel * 4 + 3, lie inside the buffer. */
  lemma PixelInBounds(width: nat, height: nat, x: int, y: int)
    requires InFrame(width, height, x, y)
    ensures 0 <= y * width + x
    ensures (y * width + x) * 4 + 3 < width * height * 4
  {
    assert y * width <= (height - 1) * width by {
      assert (height - 1 - y) * width >= 0;
    }
    assert (height - 1) * width + width == height * width;
  }

  /** Channel `channel` (0 red, 1 green, 2 blue, 3 alpha) of pixel `pixel`. */
  function Channel(data: seq<Byte>, pixel: int, channel: int): Byte
    requires 0 <= pixel && 0 <= channel < 4 && pixel * 4 + channel < |data|
  {
    data[pixel * 4 + channel]
  }

  /** Pixel (x, y) is inside the frame and skin-toned; only the red, green and
      blue channels are looked at. */
  predicate SkinAt(data: seq<Byte>, width: nat, height: nat, x: int, y: int)
    requires |data| == width * height * 4
  {
    && InFrame(width, height, x, y)
    && (PixelInBounds(width, height, x, y);
        var p := y * width + x;
        IsSkin(Channel(data, p, 0), Channel(data, p, 1), Channel(data, p, 2)))
  }

  /** Number of skin pixels (x, y) of row y with lo <= x < hi. Positions
      outside the frame are skipped, not wrapped. */
  function RowCount(data: seq<Byte>, width: nat, height: nat, y: int, lo: int, hi: int): (n: nat)
    requires |data| == width * height * 4
    ensures n <= if lo <= hi then hi - lo else 0
    decreases hi - lo
  {
    if hi <= lo then 0
    else RowCount(data, width, height, y, lo, hi - 1) + (if SkinAt(data, width, height, hi - 1, y) then 1 else 0)
  }

  /** One more row of `cols` pixels, or none, on top of `rows` rows. */
  lemma AddRow(rows: nat, cols: nat, added: bool)
    ensures (rows + if added then 1 else 0) * cols == rows * cols + if added then cols else 0
  {
  }

  /** Number of skin pixels (x, y) with ylo <= y < yhi and xlo <= x < xhi. */
  function WindowCount(data: seq<Byte>, width: nat, height: nat, ylo: int, yhi: int, xlo: int, xhi: int): (n: nat)
    requires |data| == width * height * 4
    requires xlo <= xhi
    ensures n <= if ylo <= yhi then (yhi - ylo) * (xhi - xlo) else 0
    decreases yhi - ylo
  {
    if yhi <= ylo then 0
    else
      var above := WindowCount(data, width, height, ylo, yhi - 1, xlo, xhi);
      AddRow(yhi - 1 - ylo, xhi - xlo, true);
      above + RowCount(data, width, height, yhi - 1, xlo, xhi)
  }

  /** First and one-past-last coordinate of the sampling window along an axis
      of the given size: the centre floor(size / 2), plus or minus the radius. */
  function WindowStart(size: nat): int { size / 2 - SampleRadius }
  function WindowEnd(size: nat): int { size / 2 + SampleRadius }

  /** The skin-pixel count of the sampling window: never more than the
      unclipped window area, so the skin ratio stays within [0, 1]. */
  function SkinCount(data: seq<Byte>, width: nat, height: nat): (n: nat)
    requires |data| == width * height * 4
    ensures n <= TotalSampledPixels
  {
    WindowCount(data, width, height, WindowStart(height), WindowEnd(height), WindowStart(width), WindowEnd(width))
  }

  /** The skin ratio, as an exact rational. */
  function SkinRatio(count: nat): real
  {
    count as real / TotalSampledPixels as real
  }

  lemma SkinRatioInUnitInterval(data: seq<Byte>, width: nat, height: nat)
    requires |data| == width * height * 4
    ensures 0.0 <= SkinRatio(SkinCount(data, width, height)) <= 1.0
  {
  }

  /** The threshold cascade on the skin ratio, with its strict comparisons:
      each interval is open below and closed above. */
  function Classify(skinRatio: real): (l: Label)
    ensures l == Unknown <==> skinRatio <= 0.20
    ensures l == Gesture(Scissors) <==> 0.20 < skinRatio <= 0.25
    ensures l == Gesture(Rock) <==> 0.25 < skinRatio <= 0.40
    ensures l == Gesture(Paper) <==> 0.40 < skinRatio
  {
    if skinRatio > 0.20 then
      if skinRatio > 0.40 then Gesture(Paper)
      else if skinRatio > 0.25 then Gesture(Rock)
      else Gesture(Scissors)
    else
      Unknown
  }

  /** The label a skin count leads to. The ratio thresholds 0.20, 0.25 and
      0.40 of 14400 are the counts 2880, 3600 and 5760; each bound belongs to
      the lower label. */
  function ClassifyCount(count: nat): (l: Label)
    ensures l == Unknown <==> count <= 2880
    ensures l == Gesture(Scissors) <==> 2880 < count <= 3600
    ensures l == Gesture(Rock) <==> 3600 < count <= 5760
    ensures l == Gesture(Paper) <==> 5760 < count
  {
    Classify(SkinRatio(count))
  }

  /** More skin never gives a lower label. */
  lemma ClassifyMonotone(c1: nat, c2: nat)
    requires c1 <= c2
    ensures Rank(ClassifyCount(c1)) <= Rank(ClassifyCount(c2))
  {
  }

  /** The classifier: the nested scan of the sampling window, then the
      threshold cascade on the skin ratio. */
  method AnalyzeFrame(data: seq<Byte>, width: nat, height: nat) returns (gesture: Label)
    requires |data| == width * height * 4
    ensures gesture == ClassifyCount(SkinCount(data, width, height))
  {
    var centerX := width / 2;
    var centerY := height / 2;
    var skinPixelCount := 0;
    var y := centerY - SampleRadius;
    while y < centerY + SampleRadius
      invariant centerY - SampleRadius <= y <= centerY + SampleRadius
      invariant skinPixelCount == WindowCount(data, width, height, centerY - SampleRadius, y, centerX - SampleRadius, centerX + SampleRadius)
    {
      var x := centerX - SampleRadius;
      while x < centerX + SampleRadius
        invariant centerX - SampleRadius <= x <= centerX + SampleRadius
        invariant skinPixelCount == WindowCount(data, width, height, centerY - SampleRadius, y, centerX - SampleRadius, centerX + SampleRadius)
                                    + RowCount(data, width, height, y, centerX - SampleRadius, x)
      {
        if x >= 0 && x < width && y >= 0 && y < height {
          PixelInBounds(width, height, x, y);
          var idx := (y * width + x) * 4;
          var r := data[idx];
          var g := data[idx + 1];
          var b := data[idx + 2];
          if IsSkin(r, g, b) {
            skinPixelCount := skinPixelCount + 1;
          }
        }
        x := x + 1;
      }
      y := y + 1;
    }
    var skinRatio := skinPixelCount as real / TotalSampledPixels as real;
    gesture := Classify(skinRatio);
  }
}
