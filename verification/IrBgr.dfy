/** ir_y8_to_bgr24: contrast-stretched infrared bytes as a three-channel image. */
module IrBgr {
  import opened Basics
  import opened Sorting

  type Byte = b: nat | b < 256

  datatype Options = Options(lowPercentile: nat, highPercentile: nat,
                             autoContrast: bool, minimumRange: int)

  /** Division as the source's language does it: towards zero. */
  function Truncate(a: int, b: int): int
    requires 0 < b
  {
    if 0 <= a then a / b else -(-a / b)
  }

  // -------------------------------------------------------- the active pixels

  lemma RowFits(y: nat, height: nat, stride: nat)
    requires y < height
    ensures y * stride + stride <= height * stride
  {
    assert (y + 1) * stride <= height * stride;
  }

  ghost predicate Fits(source: seq<Byte>, width: nat, height: nat, stride: nat) {
    width <= stride && height * stride <= |source|
  }

  /** The first x pixels of row y. */
  function RowPrefix(source: seq<Byte>, width: nat, ghost height: nat, stride: nat, y: nat, x: nat)
      : (r: seq<Byte>)
    requires Fits(source, width, height, stride) && y < height && x <= width
    ensures |r| == x
  {
    RowFits(y, height, stride);
    source[y * stride..y * stride + x]
  }

  /** The first y rows without their padding, in row order. */
  function Rows(source: seq<Byte>, width: nat, ghost height: nat, stride: nat, y: nat)
      : (r: seq<Byte>)
    requires Fits(source, width, height, stride) && y <= height
    ensures |r| == y * width
  {
    if y == 0 then []
    else Rows(source, width, height, stride, y - 1) +
         RowPrefix(source, width, height, stride, y - 1, width)
  }

  /** Everything before pixel x of row y. */
  function Before(source: seq<Byte>, width: nat, ghost height: nat, stride: nat, y: nat, x: nat)
      : (r: seq<Byte>)
    requires Fits(source, width, height, stride) && y < height && x <= width
    ensures |r| == y * width + x
    ensures x == 0 ==> r == Rows(source, width, height, stride, y)
    ensures x == width ==> r == Rows(source, width, height, stride, y + 1)
  {
    Rows(source, width, height, stride, y) + RowPrefix(source, width, height, stride, y, x)
  }

  lemma BeforeStep(source: seq<Byte>, width: nat, height: nat, stride: nat, y: nat, x: nat)
    requires Fits(source, width, height, stride) && y < height && x < width
    ensures 0 <= y * stride + x < |source|
    ensures Before(source, width, height, stride, y, x + 1) ==
            Before(source, width, height, stride, y, x) + [source[y * stride + x]]
  {
    RowFits(y, height, stride);
    assert RowPrefix(source, width, height, stride, y, x + 1) ==
           RowPrefix(source, width, height, stride, y, x) + [source[y * stride + x]];
  }

  /** Pixel (x, y) sits at y * width + x among the active pixels. */
  lemma {:induction false} PixelAt(source: seq<Byte>, width: nat, height: nat, stride: nat,
                                   rows: nat, y: nat, x: nat)
    requires Fits(source, width, height, stride) && y < rows <= height && x < width
    ensures 0 <= y * stride + x < |source| && y * width + x < rows * width
    ensures Rows(source, width, height, stride, rows)[y * width + x] == source[y * stride + x]
  {
    RowFits(y, height, stride);
    RowFits(y, rows, width);
    if y < rows - 1 {
      RowFits(y, rows - 1, width);
      PixelAt(source, width, height, stride, rows - 1, y, x);
    }
  }

  // ----------------------------------------------------- percentiles by counting

  ghost predicate IsHistogram(histogram: seq<nat>, pixels: seq<nat>) {
    |histogram| == 256 && forall v | 0 <= v < 256 :: histogram[v] == CountEqual(pixels, v)
  }

  function Target(pixels: nat, percentile: nat): (t: nat)
    requires 0 < pixels
    ensures t < pixels
  {
    Min(pixels - 1, pixels * percentile / 100)
  }

  /** The cumulative histogram walk finds the sorted pixel at the target index; the
      fallback after the loop is never reached. */
  method PercentileValue(histogram: array<nat>, ghost data: seq<Byte>, pixels: nat, percentile: nat)
    returns (r: Byte)
    requires pixels == |data| && 0 < pixels
    requires IsHistogram(histogram[..], data)
    ensures r == Sort(data)[Target(pixels, percentile)]
  {
    r := 255;
    var target := Target(pixels, percentile);
    var cumulative := 0;
    var value := 0;
    CountNoneBelow(data);
    while value < histogram.Length
      invariant 0 <= value <= 256
      invariant cumulative == CountAtMost(data, value - 1) <= target
    {
      CountStep(data, value);
      assert histogram[..][value] == CountEqual(data, value);
      cumulative := cumulative + histogram[value];
      if cumulative > target {
        OrderStatistic(data, target, value);
        OrderStatistic(data, target, value - 1);
        return value;
      }
      value := value + 1;
    }
    AllCounted(data, 255);
    assert false;
  }

  lemma {:induction false} CountNoneBelow(s: seq<nat>)
    ensures CountAtMost(s, -1) == 0
  {
    if s != [] {
      CountNoneBelow(s[..|s| - 1]);
    }
  }

  method CountPixels(source: seq<Byte>, width: nat, height: nat, stride: nat)
    returns (histogram: array<nat>)
    requires Fits(source, width, height, stride)
    ensures IsHistogram(histogram[..], Rows(source, width, height, stride, height))
  {
    histogram := new nat[256](_ => 0);
    var y := 0;
    while y < height
      invariant 0 <= y <= height
      invariant IsHistogram(histogram[..], Rows(source, width, height, stride, y))
    {
      var x := 0;
      while x < width
        invariant 0 <= x <= width
        invariant IsHistogram(histogram[..], Before(source, width, height, stride, y, x))
      {
        BeforeStep(source, width, height, stride, y, x);
        ghost var seen, pixel := Before(source, width, height, stride, y, x), source[y * stride + x];
        ghost var was := histogram[..];
        histogram[source[y * stride + x]] := histogram[source[y * stride + x]] + 1;
        assert histogram[..] == was[pixel := was[pixel] + 1];
        HistogramStep(was, seen, pixel);
        x := x + 1;
      }
      y := y + 1;
    }
  }

  lemma HistogramStep(histogram: seq<nat>, pixels: seq<Byte>, pixel: Byte)
    requires IsHistogram(histogram, pixels)
    ensures IsHistogram(histogram[pixel := histogram[pixel] + 1], pixels + [pixel])
  {
    assert (pixels + [pixel])[..|pixels + [pixel]| - 1] == pixels;
  }

  // ------------------------------------------------------------- the tone curve

  datatype Tone = Tone(low: Byte, high: Byte)

  ghost function ToneOf(pixels: seq<Byte>, options: Options): Tone
    requires pixels != []
  {
    if !options.autoContrast then Tone(0, 255) else
      var low := Sort(pixels)[Target(|pixels|, options.lowPercentile)];
      var high := Sort(pixels)[Target(|pixels|, options.highPercentile)];
      SortElement(pixels, Target(|pixels|, options.lowPercentile));
      SortElement(pixels, Target(|pixels|, options.highPercentile));
      if high - low < Max(1, options.minimumRange) then Tone(0, 255) else Tone(low, high)
  }

  function Stretch(value: Byte, tone: Tone): Byte {
    var range := Max(1, tone.high - tone.low);
    Max(0, Min(255, Truncate((value - tone.low) * 255, range)))
  }

  /** Each pixel as three equal channels. */
  function Triples(pixels: seq<Byte>, tone: Tone): (r: seq<Byte>)
    ensures |r| == 3 * |pixels|
  {
    if pixels == [] then []
    else
      var v := Stretch(pixels[|pixels| - 1], tone);
      Triples(pixels[..|pixels| - 1], tone) + [v, v, v]
  }

  /** The image of a frame: a function of its active pixels alone. */
  ghost function Image(pixels: seq<Byte>, options: Options): (r: seq<Byte>)
    requires pixels != []
    ensures |r| == 3 * |pixels|
  {
    Triples(pixels, ToneOf(pixels, options))
  }

  predicate Accepts(sourceBytes: nat, width: int, height: int, stride: int, options: Options) {
    && 0 < width <= stride
    && 0 < height
    && options.lowPercentile < options.highPercentile <= 100
    && height * stride <= sourceBytes
  }

  method IrY8ToBgr24(source: seq<Byte>, width: int, height: int, stride: int, options: Options)
    returns (ok: bool, output: array<Byte>, tone: Tone)
    ensures ok <==>
              && 0 < width <= stride && 0 < height && height * stride <= |source|
              && options.lowPercentile < options.highPercentile <= 100
    ensures ok <==> Accepts(|source|, width, height, stride, options)
    ensures ok ==> var pixels := Rows(source, width, height, stride, height);
              pixels != [] && output[..] == Image(pixels, options) && tone == ToneOf(pixels, options)
  {
    output, tone := new Byte[0], Tone(0, 0);
    if width <= 0 || height <= 0 || stride < width || 100 < options.lowPercentile ||
       100 < options.highPercentile || options.highPercentile <= options.lowPercentile {
      return false, output, tone;
    }
    if |source| < height * stride {
      return false, output, tone;
    }
    ghost var pixels := Rows(source, width, height, stride, height);
    RowFits(0, height, width);
    assert 0 < |pixels| == height * width;
    var low: Byte, high: Byte := 0, 255;
    if options.autoContrast {
      var histogram := CountPixels(source, width, height, stride);
      low := PercentileValue(histogram, pixels, height * width, options.lowPercentile);
      high := PercentileValue(histogram, pixels, height * width, options.highPercentile);
      if high - low < Max(1, options.minimumRange) {
        low, high := 0, 255;
      }
    }
    tone := Tone(low, high);
    assert tone == ToneOf(pixels, options);
    output := Fill(source, width, height, stride, tone);
    ok := true;
  }

  lemma TripleStep(seen: seq<Byte>, pixel: Byte, tone: Tone)
    ensures var v := Stretch(pixel, tone);
              Triples(seen + [pixel], tone) == Triples(seen, tone) + [v, v, v]
  {
    assert (seen + [pixel])[..|seen|] == seen;
  }

  method Fill(source: seq<Byte>, width: nat, height: nat, stride: nat, tone: Tone)
    returns (output: array<Byte>)
    requires Fits(source, width, height, stride)
    ensures output[..] == Triples(Rows(source, width, height, stride, height), tone)
  {
    hide Rows, Triples;
    output := new Byte[3 * (height * width)](_ => 0);
    var y := 0;
    while y < height
      invariant 0 <= y <= height
      invariant 0 <= y * width <= height * width
      invariant output.Length == 3 * (height * width)
      invariant output[..3 * (y * width)] == Triples(Rows(source, width, height, stride, y), tone)
    {
      RowFits(y, height, width);
      FillRow(source, width, height, stride, tone, y, output);
      y := y + 1;
    }
    assert output[..] == output[..3 * (height * width)];
  }

  method FillRow(source: seq<Byte>, width: nat, ghost height: nat, stride: nat, tone: Tone,
                 y: nat, output: array<Byte>)
    requires Fits(source, width, height, stride) && y < height
    requires y * width + width <= height * width && output.Length == 3 * (height * width)
    requires output[..3 * (y * width)] == Triples(Rows(source, width, height, stride, y), tone)
    modifies output
    ensures (y + 1) * width == y * width + width
    ensures output[..3 * ((y + 1) * width)] ==
            Triples(Rows(source, width, height, stride, y + 1), tone)
  {
    hide Rows, RowPrefix, Stretch, Triples;
    var x := 0;
    while x < width
      invariant 0 <= x <= width
      invariant output[..3 * (y * width + x)] == Triples(Before(source, width, height, stride, y, x), tone)
    {
      BeforeStep(source, width, height, stride, y, x);
      TripleStep(Before(source, width, height, stride, y, x), source[y * stride + x], tone);
      var value := Stretch(source[y * stride + x], tone);
      var destination := 3 * (y * width + x);
      Put(output, destination, value);
      x := x + 1;
    }
  }

  method Put(output: array<Byte>, destination: nat, value: Byte)
    requires destination + 3 <= output.Length
    modifies output
    ensures output[..destination + 3] == old(output[..destination]) + [value, value, value]
  {
    output[destination] := value;
    output[destination + 1] := value;
    output[destination + 2] := value;
  }

  // ---------------------------------------------------------------- what it means

  /** The stretched range is never empty: low < high whatever the pixels are. */
  lemma ToneIsOrdered(pixels: seq<Byte>, options: Options)
    requires pixels != [] && options.lowPercentile < options.highPercentile
    ensures var n := |pixels|; Sort(pixels)[Target(n, options.lowPercentile)] <=
                               Sort(pixels)[Target(n, options.highPercentile)]
    ensures ToneOf(pixels, options).low < ToneOf(pixels, options).high
  {
    hide Sort;
    TargetIsMonotone(|pixels|, options.lowPercentile, options.highPercentile);
    SortSorts(pixels);
  }

  lemma TargetIsMonotone(n: nat, p: nat, q: nat)
    requires 0 < n && p <= q
    ensures Target(n, p) <= Target(n, q)
  {
    assert n * p <= n * q;
    QuotientIsMonotone(n * p, n * q, 100);
  }

  /** Under auto contrast at most the low share of the pixels lies below the black point,
      and more than the high share lies at or below the white point. */
  lemma ClippedShare(pixels: seq<Byte>, options: Options)
    requires pixels != [] && options.lowPercentile < options.highPercentile
    requires options.autoContrast && ToneOf(pixels, options) != Tone(0, 255)
    ensures var tone, n := ToneOf(pixels, options), |pixels|;
      && CountAtMost(pixels, tone.low - 1) <= Target(n, options.lowPercentile)
      && Target(n, options.highPercentile) < CountAtMost(pixels, tone.high)
  {
    hide Sort, CountAtMost, Target;
    var tone, n := ToneOf(pixels, options), |pixels|;
    OrderStatistic(pixels, Target(n, options.lowPercentile), tone.low - 1);
    OrderStatistic(pixels, Target(n, options.highPercentile), tone.high);
  }

  lemma StretchIsMonotone(u: Byte, v: Byte, tone: Tone)
    requires u <= v
    ensures Stretch(u, tone) <= Stretch(v, tone)
  {
    var range := Max(1, tone.high - tone.low);
    TruncateIsMonotone((u - tone.low) * 255, (v - tone.low) * 255, range);
  }

  lemma TruncateIsMonotone(a: int, b: int, d: int)
    requires a <= b && 0 < d
    ensures Truncate(a, d) <= Truncate(b, d)
  {
    if 0 <= a {
      QuotientIsMonotone(a, b, d);
    } else if 0 <= b {
      QuotientIsMonotone(0, -a, d);
      QuotientIsMonotone(0, b, d);
    } else {
      QuotientIsMonotone(-b, -a, d);
    }
  }

  lemma QuotientIsMonotone(a: int, b: int, d: int)
    requires 0 <= a <= b && 0 < d
    ensures 0 <= a / d <= b / d
  {
    var q, p := a / d, b / d;
    assert a == d * q + a % d && b == d * p + b % d;
    if p < q {
      ProductIsMonotone(d, p + 1, q);
    }
  }

  lemma ProductIsMonotone(d: nat, u: int, v: int)
    requires u <= v
    ensures d * u <= d * v
  {
  }

  /** The ends of the range go to black and white. */
  lemma StretchEnds(v: Byte, tone: Tone)
    requires tone.low < tone.high
    ensures v <= tone.low ==> Stretch(v, tone) == 0
    ensures tone.high <= v ==> Stretch(v, tone) == 255
  {
    var range := tone.high - tone.low;
    assert range * 255 / range == 255;
    if v <= tone.low {
      StretchIsMonotone(v, tone.low, tone);
    }
    if tone.high <= v {
      assert Truncate(range * 255, range) == 255;
      StretchIsMonotone(tone.high, v, tone);
    }
  }

  lemma {:induction false} TripleAt(pixels: seq<Byte>, tone: Tone, i: nat, channel: nat)
    requires i < |pixels| && channel < 3
    ensures Triples(pixels, tone)[3 * i + channel] == Stretch(pixels[i], tone)
  {
    if i < |pixels| - 1 {
      TripleAt(pixels[..|pixels| - 1], tone, i, channel);
    }
  }

  /** Brighter source pixels never become darker, and the channels agree. */
  lemma ImageIsMonotone(pixels: seq<Byte>, options: Options, i: nat, j: nat, c: nat, d: nat)
    requires i < |pixels| && j < |pixels| && c < 3 && d < 3
    requires pixels[i] <= pixels[j]
    ensures Image(pixels, options)[3 * i + c] <= Image(pixels, options)[3 * j + d]
    ensures pixels[i] == pixels[j] ==>
              Image(pixels, options)[3 * i + c] == Image(pixels, options)[3 * j + d]
  {
    var tone := ToneOf(pixels, options);
    TripleAt(pixels, tone, i, c);
    TripleAt(pixels, tone, j, d);
    StretchIsMonotone(pixels[i], pixels[j], tone);
  }

  /** Without auto contrast the image is the source, byte for byte. */
  lemma PlainImageIsIdentity(pixels: seq<Byte>, options: Options, i: nat, c: nat)
    requires i < |pixels| && c < 3 && !options.autoContrast
    ensures Image(pixels, options)[3 * i + c] == pixels[i]
  {
    TripleAt(pixels, Tone(0, 255), i, c);
    var value: int := pixels[i];
    assert value * 255 / 255 == value;
  }

  /** Two frames that agree on their active pixels have one image, whatever their strides
      and whatever their padding holds. */
  lemma PaddingDoesNotMatter(a: seq<Byte>, b: seq<Byte>, width: nat, height: nat,
                             strideA: nat, strideB: nat, options: Options)
    requires Fits(a, width, height, strideA) && Fits(b, width, height, strideB)
    requires 0 < width && 0 < height
    requires forall y, x | 0 <= y < height && 0 <= x < width ::
               PixelOf(a, width, height, strideA, y, x) == PixelOf(b, width, height, strideB, y, x)
    ensures Rows(a, width, height, strideA, height) == Rows(b, width, height, strideB, height)
    ensures var p, q := Rows(a, width, height, strideA, height), Rows(b, width, height, strideB, height);
              p != [] && q != [] && Image(p, options) == Image(q, options)
  {
    SameRows(a, b, width, height, strideA, strideB, height);
    RowFits(0, height, width);
  }

  ghost function PixelOf(source: seq<Byte>, width: nat, height: nat, stride: nat, y: nat, x: nat): Byte
    requires Fits(source, width, height, stride) && y < height && x < width
  {
    RowFits(y, height, stride);
    source[y * stride + x]
  }

  lemma {:induction false} SameRows(a: seq<Byte>, b: seq<Byte>, width: nat, height: nat,
                                    strideA: nat, strideB: nat, rows: nat)
    requires Fits(a, width, height, strideA) && Fits(b, width, height, strideB) && rows <= height
    requires forall y, x | 0 <= y < height && 0 <= x < width ::
               PixelOf(a, width, height, strideA, y, x) == PixelOf(b, width, height, strideB, y, x)
    ensures Rows(a, width, height, strideA, rows) == Rows(b, width, height, strideB, rows)
  {
    hide PixelOf, RowPrefix;
    if 0 < rows {
      SameRows(a, b, width, height, strideA, strideB, rows - 1);
      SamePrefix(a, b, width, height, strideA, strideB, rows - 1);
    }
  }

  lemma SamePrefix(a: seq<Byte>, b: seq<Byte>, width: nat, height: nat, strideA: nat, strideB: nat, y: nat)
    requires Fits(a, width, height, strideA) && Fits(b, width, height, strideB) && y < height
    requires forall y, x | 0 <= y < height && 0 <= x < width ::
               PixelOf(a, width, height, strideA, y, x) == PixelOf(b, width, height, strideB, y, x)
    ensures RowPrefix(a, width, height, strideA, y, width) == RowPrefix(b, width, height, strideB, y, width)
  {
    var p, q := RowPrefix(a, width, height, strideA, y, width), RowPrefix(b, width, height, strideB, y, width);
    forall x | 0 <= x < width
      ensures p[x] == q[x]
    {
      RowFits(y, height, strideA);
      RowFits(y, height, strideB);
      assert p[x] == PixelOf(a, width, height, strideA, y, x);
      assert q[x] == PixelOf(b, width, height, strideB, y, x);
    }
  }

  // ------------------------------------------------------------- which tones come out

  /** v is the grey value of rank n * percentile / 100, counted from the darkest pixel. */
  predicate IsPercentile(pixels: seq<Byte>, percentile: nat, v: int) {
    var share := |pixels| * percentile / 100;
    CountAtMost(pixels, v - 1) <= (if share < |pixels| then share else |pixels| - 1) < CountAtMost(pixels, v)
  }

  lemma PercentileIsRank(pixels: seq<Byte>, percentile: nat)
    requires pixels != []
    ensures var v := Sort(pixels)[Target(|pixels|, percentile)];
      IsPercentile(pixels, percentile, v) && forall u | IsPercentile(pixels, percentile, u) :: u == v
  {
    hide Sort, CountAtMost;
    var t := Target(|pixels|, percentile);
    var v: int := Sort(pixels)[t];
    OrderStatistic(pixels, t, v);
    OrderStatistic(pixels, t, v - 1);
    forall u | IsPercentile(pixels, percentile, u)
      ensures u == v
    {
      OrderStatistic(pixels, t, u);
      OrderStatistic(pixels, t, u - 1);
    }
  }

  /** The range that is stretched: from the low to the high percentile, or everything if auto
      contrast is off or the two are too close. */
  lemma ToneIsPercentiles(pixels: seq<Byte>, options: Options, low: int, high: int)
    requires pixels != [] && options.lowPercentile < options.highPercentile
    requires IsPercentile(pixels, options.lowPercentile, low) && IsPercentile(pixels, options.highPercentile, high)
    ensures 0 <= low <= high < 256
    ensures ToneOf(pixels, options) ==
            if options.autoContrast && 1 <= high - low && options.minimumRange <= high - low
            then Tone(low, high) else Tone(0, 255)
  {
    PercentileIsRank(pixels, options.lowPercentile);
    PercentileIsRank(pixels, options.highPercentile);
    hide IsPercentile, Sort, Target;
    ToneIsOrdered(pixels, options);
    SortElement(pixels, Target(|pixels|, options.lowPercentile));
    SortElement(pixels, Target(|pixels|, options.highPercentile));
  }

  lemma QuotientInside(a: int, range: int)
    requires 0 < range && 0 <= a <= range * 255
    ensures Truncate(a, range) == a / range && 0 <= a / range <= 255
    ensures (a / range) * range <= a < (a / range + 1) * range
  {
    var q := a / range;
    assert a == range * q + a % range && 0 <= a % range < range;
    if 255 < q {
      ProductIsMonotone(range, 256, q);
    }
  }

  lemma StretchInside(v: Byte, tone: Tone)
    requires tone.low <= v <= tone.high && tone.low < tone.high
    ensures var r, range := Stretch(v, tone), tone.high - tone.low;
      r * range <= (v - tone.low) * 255 < (r + 1) * range
  {
    hide Truncate;
    QuotientInside((v - tone.low) * 255, tone.high - tone.low);
  }

  /** Every channel of every pixel is the place of the pixel in the range, of 255, rounded down. */
  lemma ImageIsStretched(pixels: seq<Byte>, options: Options, i: nat, c: nat)
    requires i < |pixels| && c < 3 && options.lowPercentile < options.highPercentile
    ensures var v, r, tone := pixels[i], Image(pixels, options)[3 * i + c], ToneOf(pixels, options);
      var range := tone.high - tone.low;
      && 0 < range
      && (v <= tone.low ==> r == 0) && (tone.high <= v ==> r == 255)
      && (tone.low < v < tone.high ==> r * range <= (v - tone.low) * 255 < (r + 1) * range)
  {
    hide Stretch, ToneOf, Sort, Truncate;
    ToneIsOrdered(pixels, options);
    var tone := ToneOf(pixels, options);
    TripleAt(pixels, tone, i, c);
    StretchEnds(pixels[i], tone);
    if tone.low < pixels[i] < tone.high {
      StretchInside(pixels[i], tone);
    }
  }
}
