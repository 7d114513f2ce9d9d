/**
  Properties of the frame classifier that relate the skin count to the frame:
  clipping, frames without skin, a window full of skin, and the alpha channel.
 */
module FrameProperties {
  import opened Game
  import opened Frame

  /** Length of the overlap of the half-open ranges [lo, hi) and [a, b). */
  function Overlap(lo: int, hi: int, a: int, b: int): nat
  {
    var left := if lo < a then a else lo;
    var right := if hi < b then hi else b;
    if right <= left then 0 else right - left
  }

  /** Number of frame pixels inside the sampling window, i.e. the window
      clipped to the frame. */
  function ClippedArea(width: nat, height: nat): nat
  {
    Overlap(WindowStart(height), WindowEnd(height), 0, height) * Overlap(WindowStart(width), WindowEnd(width), 0, width)
  }

  /** Extending a range by one position at its end adds one to the overlap
      exactly when that position lies in [a, b). */
  lemma OverlapStep(lo: int, hi: int, a: int, b: int)
    requires lo < hi
    ensures Overlap(lo, hi, a, b) == Overlap(lo, hi - 1, a, b) + (if a <= hi - 1 < b then 1 else 0)
  {
  }

  /** A row segment holds no more skin pixels than it has in-frame pixels. */
  lemma {:induction false} RowCountClipped(data: seq<Byte>, width: nat, height: nat, y: int, lo: int, hi: int)
    requires |data| == width * height * 4
    ensures RowCount(data, width, height, y, lo, hi) <= if 0 <= y < height then Overlap(lo, hi, 0, width) else 0
    decreases hi - lo
  {
    if lo < hi {
      RowCountClipped(data, width, height, y, lo, hi - 1);
      OverlapStep(lo, hi, 0, width);
    }
  }

  /** A rectangle holds no more skin pixels than it has in-frame pixels. */
  lemma {:induction false} WindowCountClipped(data: seq<Byte>, width: nat, height: nat, ylo: int, yhi: int, xlo: int, xhi: int)
    requires |data| == width * height * 4
    requires xlo <= xhi
    ensures WindowCount(data, width, height, ylo, yhi, xlo, xhi) <= Overlap(ylo, yhi, 0, height) * Overlap(xlo, xhi, 0, width)
    decreases yhi - ylo
  {
    if ylo < yhi {
      var cols := Overlap(xlo, xhi, 0, width);
      var rows := Overlap(ylo, yhi - 1, 0, height);
      var inFrame := 0 <= yhi - 1 < height;
      WindowCountClipped(data, width, height, ylo, yhi - 1, xlo, xhi);
      RowCountClipped(data, width, height, yhi - 1, xlo, xhi);
      OverlapStep(ylo, yhi, 0, height);
      AddRow(rows, cols, inFrame);
    }
  }

  /** The sampling window's skin count is bounded by its clipped area: window
      positions outside the frame are skipped and never counted. */
  lemma SkinCountClipped(data: seq<Byte>, width: nat, height: nat)
    requires |data| == width * height * 4
    ensures SkinCount(data, width, height) <= ClippedArea(width, height)
  {
    WindowCountClipped(data, width, height, WindowStart(height), WindowEnd(height), WindowStart(width), WindowEnd(width));
  }

  /** Since the ratio is still taken over 14400, a frame whose clipped window
      holds at most 2880 pixels (a fifth of the unclipped area) is always
      classified as unknown. */
  lemma SmallWindowIsUnknown(data: seq<Byte>, width: nat, height: nat)
    requires |data| == width * height * 4
    requires ClippedArea(width, height) <= 2880
    ensures ClassifyCount(SkinCount(data, width, height)) == Unknown
  {
    SkinCountClipped(data, width, height);
  }

  /** Products of naturals grow with both factors. */
  lemma ProductMonotone(a: nat, b: nat, c: nat, d: nat)
    requires a <= c && b <= d
    ensures a * b <= c * d
  {
    assert a * b <= c * b by {
      assert (c - a) * b >= 0;
    }
    assert c * b <= c * d by {
      assert c * (d - b) >= 0;
    }
  }

  /** In particular a frame of at most 2880 pixels in all is never a gesture. */
  lemma SmallFrameIsUnknown(data: seq<Byte>, width: nat, height: nat)
    requires |data| == width * height * 4
    requires width * height <= 2880
    ensures ClassifyCount(SkinCount(data, width, height)) == Unknown
  {
    var rows := Overlap(WindowStart(height), WindowEnd(height), 0, height);
    var cols := Overlap(WindowStart(width), WindowEnd(width), 0, width);
    ProductMonotone(rows, cols, height, width);
    SmallWindowIsUnknown(data, width, height);
  }

  /** No pixel (x, y) of the rectangle [xlo, xhi) x [ylo, yhi) is an
      in-frame skin-toned pixel. */
  ghost predicate NoSkin(data: seq<Byte>, width: nat, height: nat, ylo: int, yhi: int, xlo: int, xhi: int)
    requires |data| == width * height * 4
  {
    forall x, y :: ylo <= y < yhi && xlo <= x < xhi ==> !SkinAt(data, width, height, x, y)
  }

  /** A row segment counts nothing exactly when none of its pixels is skin. */
  lemma {:induction false} RowCountZero(data: seq<Byte>, width: nat, height: nat, y: int, lo: int, hi: int)
    requires |data| == width * height * 4
    ensures RowCount(data, width, height, y, lo, hi) == 0 <==> NoSkin(data, width, height, y, y + 1, lo, hi)
    decreases hi - lo
  {
    if lo < hi {
      RowCountZero(data, width, height, y, lo, hi - 1);
      var rest := NoSkin(data, width, height, y, y + 1, lo, hi - 1);
      var last := !SkinAt(data, width, height, hi - 1, y);
      if rest && last {
        forall x, y' | y <= y' < y + 1 && lo <= x < hi
          ensures !SkinAt(data, width, height, x, y')
        {
        }
      }
      if NoSkin(data, width, height, y, y + 1, lo, hi) {
        assert rest && last;
      }
    }
  }

  /** A rectangle counts nothing exactly when none of its pixels is skin. */
  lemma {:induction false} WindowCountZero(data: seq<Byte>, width: nat, height: nat, ylo: int, yhi: int, xlo: int, xhi: int)
    requires |data| == width * height * 4
    requires xlo <= xhi
    ensures WindowCount(data, width, height, ylo, yhi, xlo, xhi) == 0 <==> NoSkin(data, width, height, ylo, yhi, xlo, xhi)
    decreases yhi - ylo
  {
    if ylo < yhi {
      WindowCountZero(data, width, height, ylo, yhi - 1, xlo, xhi);
      RowCountZero(data, width, height, yhi - 1, xlo, xhi);
      var above := NoSkin(data, width, height, ylo, yhi - 1, xlo, xhi);
      var last := NoSkin(data, width, height, yhi - 1, yhi, xlo, xhi);
      if above && last {
        forall x, y | ylo <= y < yhi && xlo <= x < xhi
          ensures !SkinAt(data, width, height, x, y)
        {
        }
      }
      if NoSkin(data, width, height, ylo, yhi, xlo, xhi) {
        assert above && last;
      }
    }
  }

  /** The window's skin count is zero exactly when no pixel of the sampling
      window is skin-toned, and such a frame is classified as unknown;
      skin-toned pixels outside the window play no part. */
  lemma NoSkinIsUnknown(data: seq<Byte>, width: nat, height: nat)
    requires |data| == width * height * 4
    ensures SkinCount(data, width, height) == 0 <==> NoSkin(data, width, height, WindowStart(height), WindowEnd(height), WindowStart(width), WindowEnd(width))
    ensures NoSkin(data, width, height, WindowStart(height), WindowEnd(height), WindowStart(width), WindowEnd(width))
            ==> ClassifyCount(SkinCount(data, width, height)) == Unknown
  {
    WindowCountZero(data, width, height, WindowStart(height), WindowEnd(height), WindowStart(width), WindowEnd(width));
  }

  /** A frame whose red channel never exceeds 50 (an all-black frame, say)
      fails the test r > 50 everywhere and is classified as unknown. */
  lemma DarkFrameIsUnknown(data: seq<Byte>, width: nat, height: nat)
    requires |data| == width * height * 4
    requires forall p :: 0 <= p < width * height ==> Channel(data, p, 0) <= 50
    ensures ClassifyCount(SkinCount(data, width, height)) == Unknown
  {
    forall x, y
      ensures !SkinAt(data, width, height, x, y)
    {
      if InFrame(width, height, x, y) {
        PixelInBounds(width, height, x, y);
        assert Channel(data, y * width + x, 0) <= 50;
      }
    }
    NoSkinIsUnknown(data, width, height);
  }

  /** Every pixel of the rectangle [xlo, xhi) x [ylo, yhi) is in the frame and
      skin-toned. */
  ghost predicate AllSkin(data: seq<Byte>, width: nat, height: nat, ylo: int, yhi: int, xlo: int, xhi: int)
    requires |data| == width * height * 4
  {
    forall x, y :: ylo <= y < yhi && xlo <= x < xhi ==> SkinAt(data, width, height, x, y)
  }

  lemma {:induction false} RowCountAllSkin(data: seq<Byte>, width: nat, height: nat, y: int, lo: int, hi: int)
    requires |data| == width * height * 4
    requires lo <= hi
    requires AllSkin(data, width, height, y, y + 1, lo, hi)
    ensures RowCount(data, width, height, y, lo, hi) == hi - lo
    decreases hi - lo
  {
    if lo < hi {
      RowCountAllSkin(data, width, height, y, lo, hi - 1);
      assert SkinAt(data, width, height, hi - 1, y);
    }
  }

  lemma {:induction false} WindowCountAllSkin(data: seq<Byte>, width: nat, height: nat, ylo: int, yhi: int, xlo: int, xhi: int)
    requires |data| == width * height * 4
    requires ylo <= yhi && xlo <= xhi
    requires AllSkin(data, width, height, ylo, yhi, xlo, xhi)
    ensures WindowCount(data, width, height, ylo, yhi, xlo, xhi) == (yhi - ylo) * (xhi - xlo)
    decreases yhi - ylo
  {
    if ylo < yhi {
      WindowCountAllSkin(data, width, height, ylo, yhi - 1, xlo, xhi);
      RowCountAllSkin(data, width, height, yhi - 1, xlo, xhi);
      AddRow(yhi - 1 - ylo, xhi - xlo, true);
    }
  }

  /** A sampling window made entirely of skin-toned frame pixels gives the
      full count of 14400, a skin ratio of 1, and the label paper. */
  lemma FullSkinWindowIsPaper(data: seq<Byte>, width: nat, height: nat)
    requires |data| == width * height * 4
    requires AllSkin(data, width, height, WindowStart(height), WindowEnd(height), WindowStart(width), WindowEnd(width))
    ensures SkinCount(data, width, height) == TotalSampledPixels
    ensures ClassifyCount(SkinCount(data, width, height)) == Gesture(Paper)
  {
    WindowCountAllSkin(data, width, height, WindowStart(height), WindowEnd(height), WindowStart(width), WindowEnd(width));
  }

  /** Two buffers of the same length that agree on every red, green and blue
      channel; their alpha channels may differ. */
  ghost predicate SameColours(d1: seq<Byte>, d2: seq<Byte>)
  {
    && |d1| == |d2|
    && forall p, c :: 0 <= p && 0 <= c < 3 && p * 4 + c < |d1| ==> Channel(d1, p, c) == Channel(d2, p, c)
  }

  lemma {:induction false} RowCountIgnoresAlpha(d1: seq<Byte>, d2: seq<Byte>, width: nat, height: nat, y: int, lo: int, hi: int)
    requires |d1| == width * height * 4
    requires SameColours(d1, d2)
    ensures RowCount(d1, width, height, y, lo, hi) == RowCount(d2, width, height, y, lo, hi)
    decreases hi - lo
  {
    if lo < hi {
      RowCountIgnoresAlpha(d1, d2, width, height, y, lo, hi - 1);
      if InFrame(width, height, hi - 1, y) {
        PixelInBounds(width, height, hi - 1, y);
        var p := y * width + (hi - 1);
        assert Channel(d1, p, 0) == Channel(d2, p, 0);
        assert Channel(d1, p, 1) == Channel(d2, p, 1);
        assert Channel(d1, p, 2) == Channel(d2, p, 2);
      }
    }
  }

  lemma {:induction false} WindowCountIgnoresAlpha(d1: seq<Byte>, d2: seq<Byte>, width: nat, height: nat, ylo: int, yhi: int, xlo: int, xhi: int)
    requires |d1| == width * height * 4
    requires xlo <= xhi
    requires SameColours(d1, d2)
    ensures WindowCount(d1, width, height, ylo, yhi, xlo, xhi) == WindowCount(d2, width, height, ylo, yhi, xlo, xhi)
    decreases yhi - ylo
  {
    if ylo < yhi {
      WindowCountIgnoresAlpha(d1, d2, width, height, ylo, yhi - 1, xlo, xhi);
      RowCountIgnoresAlpha(d1, d2, width, height, yhi - 1, xlo, xhi);
    }
  }

  /** The alpha channel is never read: frames that differ only in alpha get
      the same skin count and therefore the same label. */
  lemma AlphaIgnored(d1: seq<Byte>, d2: seq<Byte>, width: nat, height: nat)
    requires |d1| == width * height * 4
    requires SameColours(d1, d2)
    ensures SkinCount(d1, width, height) == SkinCount(d2, width, height)
    ensures ClassifyCount(SkinCount(d1, width, height)) == ClassifyCount(SkinCount(d2, width, height))
  {
    WindowCountIgnoresAlpha(d1, d2, width, height, WindowStart(height), WindowEnd(height), WindowStart(width), WindowEnd(width));
  }
}
