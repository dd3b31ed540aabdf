/**
 * The fragment shader, over an integer pixel grid: every output pixel is
 * the kernel-weighted sum of its 3x3 neighbourhood divided by the weight,
 * with alpha forced to 1.  Textures are created with CLAMP_TO_EDGE wrapping
 * and NEAREST filtering, so a neighbour outside the image reads the nearest
 * edge pixel and a sample reads exactly one pixel.
 */
module Convolution {
  import opened Kernels

  datatype Rgba = Rgba(r: real, g: real, b: real, a: real)

  /** A texture's content: `pixels[y][x]`. */
  datatype Image = Image(width: nat, height: nat, pixels: seq<seq<Rgba>>)

  ghost predicate Valid(img: Image)
  {
    && img.width > 0 && img.height > 0
    && |img.pixels| == img.height
    && forall y :: 0 <= y < img.height ==> |img.pixels[y]| == img.width
  }

  const Transparent := Rgba(0.0, 0.0, 0.0, 0.0)

  function Add(p: Rgba, q: Rgba): Rgba
  {
    Rgba(p.r + q.r, p.g + q.g, p.b + q.b, p.a + q.a)
  }

  function Scale(p: Rgba, c: real): Rgba
  {
    Rgba(p.r * c, p.g * c, p.b * c, p.a * c)
  }

  /** CLAMP_TO_EDGE along one axis of length n. */
  function Clamp(v: int, n: nat): (r: int)
    requires n > 0
    ensures 0 <= r < n
    ensures 0 <= v < n ==> r == v
    ensures v < 0 ==> r == 0
    ensures v >= n ==> r == n - 1
  {
    if v < 0 then 0 else if v >= n then n - 1 else v
  }

  /** `texture2D` with nearest filtering and clamp-to-edge wrapping. */
  function Texel(img: Image, x: int, y: int): (p: Rgba)
    requires Valid(img)
    ensures 0 <= x < img.width && 0 <= y < img.height ==> p == img.pixels[y][x]
    ensures x < 0 && 0 <= y < img.height ==> p == img.pixels[y][0]
    ensures x >= img.width && 0 <= y < img.height ==> p == img.pixels[y][img.width - 1]
    ensures y < 0 && 0 <= x < img.width ==> p == img.pixels[0][x]
    ensures y >= img.height && 0 <= x < img.width ==> p == img.pixels[img.height - 1][x]
  {
    img.pixels[Clamp(y, img.height)][Clamp(x, img.width)]
  }

  /** The neighbourhood offset of coefficient k: (k mod 3 - 1, k div 3 - 1). */
  function OffsetX(k: nat): int { k % 3 - 1 }
  function OffsetY(k: nat): int { k / 3 - 1 }

  /** The shader's `colorSum`, truncated to the first n of the nine terms. */
  function ColorSum(img: Image, kernel: seq<int>, x: int, y: int, n: nat): Rgba
    requires Valid(img) && n <= |kernel|
  {
    if n == 0 then Transparent
    else Add(ColorSum(img, kernel, x, y, n - 1),
             Scale(Texel(img, x + OffsetX(n - 1), y + OffsetY(n - 1)), kernel[n - 1] as real))
  }

  /**
   * One fragment: `vec4((colorSum / u_kernelWeight).rgb, 1.0)`.
   * The weight is always positive (see `ComputeKernelWeight`).
   */
  function Shade(img: Image, kernel: seq<int>, weight: int, x: int, y: int): (c: Rgba)
    requires Valid(img) && |kernel| == 9 && weight > 0
    ensures c.a == 1.0
  {
    var s := ColorSum(img, kernel, x, y, 9);
    var w := weight as real;
    Rgba(s.r / w, s.g / w, s.b / w, 1.0)
  }

  /** One draw of the full rectangle: the shader run at every pixel of the target. */
  function Pass(img: Image, kernel: seq<int>, weight: int): (out: Image)
    requires Valid(img) && |kernel| == 9 && weight > 0
    ensures Valid(out) && out.width == img.width && out.height == img.height
  {
    Image(img.width, img.height,
      seq(img.height, y requires 0 <= y < img.height =>
        seq(img.width, x requires 0 <= x < img.width => Shade(img, kernel, weight, x, y))))
  }

  /** The image with every alpha set to 1 and the colour channels kept. */
  function Opaque(img: Image): (out: Image)
    requires Valid(img)
  {
    Image(img.width, img.height,
      seq(img.height, y requires 0 <= y < img.height =>
        seq(img.width, x requires 0 <= x < img.width =>
          var p := img.pixels[y][x]; Rgba(p.r, p.g, p.b, 1.0))))
  }

  /**
   * The shader's `colorSum` as it is written: nine `texture2D` reads at the
   * offsets (-1,-1), (0,-1), (1,-1), (-1,0), (0,0), (1,0), (-1,1), (0,1),
   * (1,1), each multiplied by its coefficient and added left to right.
   */
  function ShaderSum(img: Image, kernel: seq<int>, x: int, y: int): Rgba
    requires Valid(img) && |kernel| == 9
  {
    Add(Add(Add(Add(Add(Add(Add(Add(
      Scale(Texel(img, x - 1, y - 1), kernel[0] as real),
      Scale(Texel(img, x, y - 1), kernel[1] as real)),
      Scale(Texel(img, x + 1, y - 1), kernel[2] as real)),
      Scale(Texel(img, x - 1, y), kernel[3] as real)),
      Scale(Texel(img, x, y), kernel[4] as real)),
      Scale(Texel(img, x + 1, y), kernel[5] as real)),
      Scale(Texel(img, x - 1, y + 1), kernel[6] as real)),
      Scale(Texel(img, x, y + 1), kernel[7] as real)),
      Scale(Texel(img, x + 1, y + 1), kernel[8] as real))
  }

  /** The indexed sum over `OffsetX`/`OffsetY` is the shader's nine-term sum. */
  lemma ColorSumIsShaderSum(img: Image, kernel: seq<int>, x: int, y: int)
    requires Valid(img) && |kernel| == 9
    ensures ColorSum(img, kernel, x, y, 9) == ShaderSum(img, kernel, x, y)
  {
    assert ColorSum(img, kernel, x, y, 1)
      == Scale(Texel(img, x - 1, y - 1), kernel[0] as real);
    assert ColorSum(img, kernel, x, y, 2) == Add(ColorSum(img, kernel, x, y, 1),
      Scale(Texel(img, x, y - 1), kernel[1] as real));
    assert ColorSum(img, kernel, x, y, 3) == Add(ColorSum(img, kernel, x, y, 2),
      Scale(Texel(img, x + 1, y - 1), kernel[2] as real));
    assert ColorSum(img, kernel, x, y, 4) == Add(ColorSum(img, kernel, x, y, 3),
      Scale(Texel(img, x - 1, y), kernel[3] as real));
    assert ColorSum(img, kernel, x, y, 5) == Add(ColorSum(img, kernel, x, y, 4),
      Scale(Texel(img, x, y), kernel[4] as real));
    assert ColorSum(img, kernel, x, y, 6) == Add(ColorSum(img, kernel, x, y, 5),
      Scale(Texel(img, x + 1, y), kernel[5] as real));
    assert ColorSum(img, kernel, x, y, 7) == Add(ColorSum(img, kernel, x, y, 6),
      Scale(Texel(img, x - 1, y + 1), kernel[6] as real));
    assert ColorSum(img, kernel, x, y, 8) == Add(ColorSum(img, kernel, x, y, 7),
      Scale(Texel(img, x, y + 1), kernel[7] as real));
    assert ColorSum(img, kernel, x, y, 9) == Add(ColorSum(img, kernel, x, y, 8),
      Scale(Texel(img, x + 1, y + 1), kernel[8] as real));
  }

  /**
   * Every output pixel of a pass is the shader's nine-term neighbourhood
   * sum divided by the weight, with alpha 1.
   */
  lemma PassPixel(img: Image, kernel: seq<int>, weight: int, x: nat, y: nat)
    requires Valid(img) && |kernel| == 9 && weight > 0
    requires x < img.width && y < img.height
    ensures var s := ShaderSum(img, kernel, x, y);
      var w := weight as real;
      Pass(img, kernel, weight).pixels[y][x] == Rgba(s.r / w, s.g / w, s.b / w, 1.0)
  {
    ColorSumIsShaderSum(img, kernel, x, y);
  }

  /** The identity kernel is 1 at the centre and 0 elsewhere. */
  lemma NormalCoefficient(k: nat)
    requires k < 9
    ensures Normal[k] == (if k == 4 then 1 else 0)
  {
    if k < 4 {
      assert Normal[..4] == [0, 0, 0, 0];
      assert Normal[k] == Normal[..4][k];
    } else if k > 4 {
      assert Normal[5..] == [0, 0, 0, 0];
      assert Normal[k] == Normal[5..][k - 5];
    }
  }

  /** With the identity kernel only the centre term survives. */
  lemma {:induction false} IdentitySum(img: Image, x: int, y: int, n: nat)
    requires Valid(img) && n <= 9
    ensures ColorSum(img, Normal, x, y, n) == (if n <= 4 then Transparent else Texel(img, x, y))
  {
    if n > 0 {
      IdentitySum(img, x, y, n - 1);
      NormalCoefficient(n - 1);
      var before := ColorSum(img, Normal, x, y, n - 1);
      var t := Texel(img, x + OffsetX(n - 1), y + OffsetY(n - 1));
      assert ColorSum(img, Normal, x, y, n) == Add(before, Scale(t, Normal[n - 1] as real));
      if n - 1 == 4 {
        assert OffsetX(4) == 0 && OffsetY(4) == 0;
        assert Scale(t, 1.0) == t;
        assert Add(Transparent, t) == t;
      } else {
        assert Scale(t, 0.0) == Transparent;
        assert Add(before, Transparent) == before;
      }
    }
  }

  /**
   * The identity kernel with weight 1 reproduces the input's colour
   * channels exactly and sets alpha to 1.
   */
  lemma IdentityPassIsOpaqueCopy(img: Image)
    requires Valid(img)
    ensures Pass(img, Normal, 1) == Opaque(img)
  {
    var out := Pass(img, Normal, 1);
    var o := Opaque(img);
    forall y | 0 <= y < img.height
      ensures out.pixels[y] == o.pixels[y]
    {
      forall x | 0 <= x < img.width
        ensures out.pixels[y][x] == o.pixels[y][x]
      {
        IdentitySum(img, x, y, 9);
      }
    }
  }
}
