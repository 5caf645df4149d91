/** The grayscale/invert loop of `preprocessImage` (src/utils/classifier.ts),
    starting from the already resized 28 x 28 RGBA buffer. */
module Preprocess {

  /** One channel of a canvas pixel buffer (a Uint8ClampedArray entry). */
  type Byte = x: int | 0 <= x < 256

  /** Area of the 28 x 28 grid the picture is resized to. */
  const GridSize: nat := 784

  /** Unweighted mean of r, g and b, inverted and scaled to [0, 1]:
      white paper is 0, black ink is 1. */
  function Intensity(r: Byte, g: Byte, b: Byte): (v: real)
    ensures 0.0 <= v <= 1.0
    ensures v == 0.0 <==> r == 255 && g == 255 && b == 255
    ensures v == 1.0 <==> r == 0 && g == 0 && b == 0
  {
    1.0 - ((r + g + b) as real / 3.0) / 255.0
  }

  /** The vector the loop builds: one intensity per RGBA quadruple, in buffer
      (row-major) order; the alpha channel is never read. */
  function IntensityVector(rgba: seq<Byte>): (v: seq<real>)
    requires |rgba| % 4 == 0
    ensures |v| == |rgba| / 4
    decreases |rgba|
  {
    if |rgba| == 0 then []
    else
      var n := |rgba| - 4;
      IntensityVector(rgba[..n]) + [Intensity(rgba[n], rgba[n + 1], rgba[n + 2])]
  }

  /** `new Array(784).fill(0)`: the answer when a 2D context is missing. */
  function Blank(): (v: seq<real>)
    ensures |v| == GridSize && forall k :: 0 <= k < |v| ==> v[k] == 0.0
  {
    seq(GridSize, _ => 0.0)
  }

  /** What `preprocessImage` returns for the resized buffer, given whether both
      of its 2D contexts could be obtained. */
  function Preprocessed(contextOk: bool, rgba: seq<Byte>): (v: seq<real>)
    requires |rgba| % 4 == 0
  {
    if contextOk then IntensityVector(rgba) else Blank()
  }

  /** The k-th output value is the intensity of the k-th quadruple. */
  lemma {:induction false} IntensityAt(rgba: seq<Byte>, k: nat)
    requires |rgba| % 4 == 0 && k < |rgba| / 4
    ensures IntensityVector(rgba)[k] == Intensity(rgba[4 * k], rgba[4 * k + 1], rgba[4 * k + 2])
    decreases |rgba|
  {
    var n := |rgba| - 4;
    if k < n / 4 {
      IntensityAt(rgba[..n], k);
    }
  }

  /** For every buffer the vector has one value per pixel, each in [0, 1]; the
      28 x 28 buffer gives 784 values, and so does a missing context. */
  lemma PreprocessedShape(contextOk: bool, rgba: seq<Byte>)
    requires |rgba| % 4 == 0
    ensures var v := Preprocessed(contextOk, rgba);
      && (contextOk ==> |v| == |rgba| / 4)
      && (|rgba| == 4 * GridSize ==> |v| == GridSize)
      && forall k :: 0 <= k < |v| ==> 0.0 <= v[k] <= 1.0
  {
    if contextOk {
      forall k | 0 <= k < |rgba| / 4
        ensures 0.0 <= IntensityVector(rgba)[k] <= 1.0
      {
        IntensityAt(rgba, k);
      }
    }
  }

  /** Two buffers that differ only in their alpha channels give the same vector. */
  lemma {:induction false} AlphaIgnored(a: seq<Byte>, b: seq<Byte>)
    requires |a| == |b| && |a| % 4 == 0
    requires forall i :: 0 <= i < |a| && i % 4 != 3 ==> a[i] == b[i]
    ensures IntensityVector(a) == IntensityVector(b)
    decreases |a|
  {
    if |a| > 0 {
      var n := |a| - 4;
      AlphaIgnored(a[..n], b[..n]);
    }
  }

  /** A buffer holding `n` copies of one pixel. */
  function Repeat(px: seq<Byte>, n: nat): (s: seq<Byte>)
    requires |px| == 4
    ensures |s| == 4 * n
  {
    if n == 0 then [] else Repeat(px, n - 1) + px
  }

  /** A uniformly coloured buffer gives a constant vector. */
  lemma {:induction false} UniformBuffer(px: seq<Byte>, n: nat)
    requires |px| == 4
    ensures IntensityVector(Repeat(px, n)) == seq(n, _ => Intensity(px[0], px[1], px[2]))
  {
    if n > 0 {
      var s := Repeat(px, n);
      assert s[..4 * (n - 1)] == Repeat(px, n - 1);
      UniformBuffer(px, n - 1);
    }
  }

  /** An untouched white canvas is all background (0); a canvas wiped with
      clearRect holds transparent black (0, 0, 0, 0), which counts as ink (1),
      exactly like opaque black. */
  lemma WhiteAndTransparent(n: nat)
    ensures IntensityVector(Repeat([255, 255, 255, 255], n)) == seq(n, _ => 0.0)
    ensures IntensityVector(Repeat([0, 0, 0, 0], n)) == seq(n, _ => 1.0)
    ensures IntensityVector(Repeat([0, 0, 0, 0], n)) == IntensityVector(Repeat([0, 0, 0, 255], n))
  {
    UniformBuffer([255, 255, 255, 255], n);
    UniformBuffer([0, 0, 0, 0], n);
    UniformBuffer([0, 0, 0, 255], n);
  }

  /** The loop of `preprocessImage`: step through the buffer four bytes at a
      time and push one normalised value per pixel. */
  method PreprocessImage(contextOk: bool, data: array<Byte>) returns (pixels: seq<real>)
    requires data.Length % 4 == 0
    ensures pixels == Preprocessed(contextOk, data[..])
  {
    if !contextOk {
      return Blank();
    }
    pixels := [];
    var i := 0;
    while i < data.Length
      invariant 0 <= i <= data.Length && i % 4 == 0
      invariant pixels == IntensityVector(data[..i])
    {
      var r, g, b := data[i], data[i + 1], data[i + 2];
      var normalized := Intensity(r, g, b);
      pixels := pixels + [normalized];
      assert data[..i + 4][..i] == data[..i];
      i := i + 4;
    }
    assert data[..i] == data[..];
  }
}
