/**
 * What a chain of draws does to pixels.  Each offscreen pass whose
 * viewport, resolution and texture size coincide covers its target one
 * texel per pixel, so it stores the shader's `Pass` of the texture it
 * samples; the canvas pass with `flipY = -1` places that result upright in
 * the top-left corner of the canvas.  Draws outside that one-to-one case
 * (a stale viewport, a resolution that is not the target's size) are not
 * given pixel semantics and make `Apply` return `None`.
 */
module Composite {
  import opened Common
  import opened Kernels
  import opened Executor
  import opened Convolution

  /** The pixel contents of the original texture, the two pool textures and the canvas, as displayed. */
  datatype Surfaces = Surfaces(original: Image, pool: seq<Image>, canvas: Image)

  function SizeOf(img: Image): Size
  {
    Size(img.width, img.height)
  }

  /** Every texture has the image's size and the canvas has its own. */
  ghost predicate Ready(s: Surfaces, image: Size, canvas: Size)
  {
    && Valid(s.original) && SizeOf(s.original) == image
    && |s.pool| == 2
    && (forall k :: 0 <= k < 2 ==> Valid(s.pool[k]) && SizeOf(s.pool[k]) == image)
    && Valid(s.canvas) && SizeOf(s.canvas) == canvas
  }

  /** The texture a draw samples. */
  function Sample(s: Surfaces, src: Source): Option<Image>
  {
    match src
    case OriginalTexture => Some(s.original)
    case PoolTexture(k) => if k < |s.pool| then Some(s.pool[k]) else None
  }

  /** The canvas with `img` drawn upright over its top-left corner, clipped to the canvas. */
  ghost function Paint(canvas: Image, img: Image): (out: Image)
    requires Valid(canvas) && Valid(img)
    ensures Valid(out) && SizeOf(out) == SizeOf(canvas)
  {
    Image(canvas.width, canvas.height,
      seq(canvas.height, y requires 0 <= y < canvas.height =>
        seq(canvas.width, x requires 0 <= x < canvas.width =>
          if y < img.height && x < img.width then img.pixels[y][x] else canvas.pixels[y][x])))
  }

  /** A canvas of the image's own size is wholly covered by it. */
  lemma PaintCoversSameSize(canvas: Image, img: Image)
    requires Valid(canvas) && Valid(img) && SizeOf(img) == SizeOf(canvas)
    ensures Paint(canvas, img) == img
  {
    var p := Paint(canvas, img);
    forall y | 0 <= y < img.height
      ensures p.pixels[y] == img.pixels[y]
    {
    }
  }

  /** Outside the image's extent the canvas keeps its pixels; inside, it shows the image. */
  lemma PaintPixel(canvas: Image, img: Image, x: nat, y: nat)
    requires Valid(canvas) && Valid(img) && x < canvas.width && y < canvas.height
    ensures Paint(canvas, img).pixels[y][x] ==
      if x < img.width && y < img.height then img.pixels[y][x] else canvas.pixels[y][x]
  {
  }

  /** One draw; `None` for a feedback loop, a malformed draw, or a draw outside the one-to-one case. */
  ghost function Apply(s: Surfaces, d: Draw): (r: Option<Surfaces>)
    ensures r.Some? ==> WrittenTexture(d.target) != Some(d.source) && d.viewport == d.resolution
    ensures r.Some? ==> r.value.original == s.original && |r.value.pool| == |s.pool|
    ensures r.Some? && d.target.Canvas? ==> r.value.pool == s.pool
    ensures r.Some? && d.target.Framebuffer? ==> r.value.canvas == s.canvas
    ensures r.Some? && d.target.Framebuffer? ==>
      forall k :: 0 <= k < |s.pool| && k != d.target.slot ==> r.value.pool[k] == s.pool[k]
  {
    match Sample(s, d.source)
    case None => None
    case Some(src) =>
      if !Valid(src) || |d.kernel| != 9 || d.weight <= 0 || WrittenTexture(d.target) == Some(d.source)
         || SizeOf(src) != d.textureSize || d.viewport != d.resolution
      then None
      else
        var out := Pass(src, d.kernel, d.weight);
        match d.target
        case Framebuffer(k) =>
          if k < |s.pool| && d.flipY == 1 && d.resolution == d.textureSize
          then Some(s.(pool := s.pool[k := out]))
          else None
        case Canvas =>
          if Valid(s.canvas) && d.flipY == -1 && d.resolution == SizeOf(s.canvas)
          then Some(s.(canvas := Paint(s.canvas, out)))
          else None
  }

  /** The draws in order; `None` as soon as one has no pixel semantics. */
  ghost function ApplyAll(s: Surfaces, ds: seq<Draw>): Option<Surfaces>
  {
    if ds == [] then Some(s)
    else match ApplyAll(s, ds[..|ds| - 1])
      case None => None
      case Some(t) => Apply(t, ds[|ds| - 1])
  }

  /** The image after applying the named kernels one after the other, each divided by its weight. */
  ghost function Filtered(img: Image, kernels: Table, names: seq<string>): (out: Image)
    requires Valid(img) && WellFormed(kernels) && AllKnown(kernels, names)
    ensures Valid(out) && SizeOf(out) == SizeOf(img)
    decreases |names|
  {
    if names == [] then img
    else
      var last := names[|names| - 1];
      assert last in names;
      Pass(Filtered(img, kernels, names[..|names| - 1]), kernels[last], ComputeKernelWeight(kernels[last]))
  }

  /** The texture holding the result after i offscreen passes. */
  function Current(s: Surfaces, i: nat): Option<Image>
  {
    Sample(s, ReadBefore(i))
  }

  /**
   * The first i offscreen passes leave the original and the canvas alone,
   * keep every texture at the image size, and leave the chain applied to
   * the first i names in the texture the next pass reads.  Each pass is
   * one-to-one when its viewport is the image size: always in the copy
   * that sets the viewport, and in the other only when the viewport left
   * by earlier drawing happens to be the image size.
   */
  lemma {:induction false} OffscreenPrefix(
    cfg: Config, kernels: Table, names: seq<string>, image: Size, canvas: Size, initial: Size, s: Surfaces, i: nat)
    requires WellFormed(kernels) && AllKnown(kernels, names)
    requires i == 0 || ViewportFor(cfg, image, initial) == image
    requires Ready(s, image, canvas) && i <= |names|
    ensures var r := ApplyAll(s, OffscreenDraws(cfg, kernels, names, 0, image, initial)[..i]);
      && r.Some? && Ready(r.value, image, canvas)
      && r.value.original == s.original && r.value.canvas == s.canvas
      && Current(r.value, i) == Some(Filtered(s.original, kernels, names[..i]))
  {
    var offs := OffscreenDraws(cfg, kernels, names, 0, image, initial);
    if i == 0 {
      assert offs[..0] == [];
      assert names[..0] == [];
    } else {
      OffscreenPrefix(cfg, kernels, names, image, canvas, initial, s, i - 1);
      PrefixStep(cfg, kernels, names, image, canvas, initial, s, i);
    }
  }

  /** Extending a prefix of offscreen passes by the next pass. */
  lemma PrefixStep(
    cfg: Config, kernels: Table, names: seq<string>, image: Size, canvas: Size, initial: Size, s: Surfaces, i: nat)
    requires WellFormed(kernels) && AllKnown(kernels, names)
    requires ViewportFor(cfg, image, initial) == image
    requires Ready(s, image, canvas) && 0 < i <= |names|
    requires var r := ApplyAll(s, OffscreenDraws(cfg, kernels, names, 0, image, initial)[..i - 1]);
      && r.Some? && Ready(r.value, image, canvas)
      && r.value.original == s.original && r.value.canvas == s.canvas
      && Current(r.value, i - 1) == Some(Filtered(s.original, kernels, names[..i - 1]))
    ensures var r := ApplyAll(s, OffscreenDraws(cfg, kernels, names, 0, image, initial)[..i]);
      && r.Some? && Ready(r.value, image, canvas)
      && r.value.original == s.original && r.value.canvas == s.canvas
      && Current(r.value, i) == Some(Filtered(s.original, kernels, names[..i]))
  {
    var offs := OffscreenDraws(cfg, kernels, names, 0, image, initial);
    var t := ApplyAll(s, offs[..i - 1]).value;
    var name := names[i - 1];
    assert name in names;
    var d := OffscreenDraw(cfg, kernels, name, i - 1, image, initial);
    ApplyAllSnoc(s, offs, i);
    var before := Filtered(s.original, kernels, names[..i - 1]);
    OffscreenStep(cfg, kernels, name, i - 1, image, canvas, initial, t, before);
    FilteredSnoc(s.original, kernels, names, i);
  }

  lemma ApplyAllSnoc(s: Surfaces, ds: seq<Draw>, i: nat)
    requires 0 < i <= |ds| && ApplyAll(s, ds[..i - 1]).Some?
    ensures ApplyAll(s, ds[..i]) == Apply(ApplyAll(s, ds[..i - 1]).value, ds[i - 1])
  {
    assert ds[..i][..i - 1] == ds[..i - 1];
  }

  lemma FilteredSnoc(img: Image, kernels: Table, names: seq<string>, i: nat)
    requires Valid(img) && WellFormed(kernels) && AllKnown(kernels, names) && 0 < i <= |names|
    ensures names[i - 1] in kernels
    ensures var k := kernels[names[i - 1]];
      Filtered(img, kernels, names[..i]) == Pass(Filtered(img, kernels, names[..i - 1]), k, ComputeKernelWeight(k))
  {
    assert names[i - 1] in names;
    assert names[..i][..i - 1] == names[..i - 1];
    assert names[..i][i - 1] == names[i - 1];
  }

  /** One offscreen pass stores its result in the slot the next pass reads. */
  lemma OffscreenStep(
    cfg: Config, kernels: Table, name: string, j: nat, image: Size, canvas: Size, initial: Size,
    t: Surfaces, before: Image)
    requires WellFormed(kernels) && name in kernels
    requires ViewportFor(cfg, image, initial) == image
    requires Ready(t, image, canvas) && Current(t, j) == Some(before)
    ensures var out := Pass(before, kernels[name], ComputeKernelWeight(kernels[name]));
      var t' := t.(pool := t.pool[j % 2 := out]);
      && Apply(t, OffscreenDraw(cfg, kernels, name, j, image, initial)) == Some(t')
      && Ready(t', image, canvas) && Current(t', j + 1) == Some(out)
  {
    if j > 0 {
      assert (j - 1) % 2 != j % 2;
    }
  }

  /**
   * When every pass is one-to-one, a whole chain ends with the canvas
   * showing, upright in its top-left corner, the original filtered by the
   * checked kernels in row order, fully opaque.  The copy that sets the
   * viewport meets the condition for every image and canvas; the other
   * meets it only when the viewport left by earlier drawing is the canvas
   * size and, if any kernel is checked, also the image size.
   */
  lemma ChainFiltersOriginal(
    cfg: Config, kernels: Table, names: seq<string>, image: Size, canvas: Size, initial: Size, s: Surfaces)
    requires WellFormed(kernels) && AllKnown(kernels, names)
    requires ViewportFor(cfg, canvas, initial) == canvas
    requires names != [] ==> ViewportFor(cfg, image, initial) == image
    requires Ready(s, image, canvas)
    ensures var r := ApplyAll(s, ExpectedDraws(cfg, kernels, names, image, canvas, initial));
      && r.Some? && r.value.original == s.original
      && r.value.canvas == Paint(s.canvas, Opaque(Filtered(s.original, kernels, names)))
  {
    var offs := OffscreenDraws(cfg, kernels, names, 0, image, initial);
    var ds := ExpectedDraws(cfg, kernels, names, image, canvas, initial);
    var n := |names|;
    OffscreenPrefix(cfg, kernels, names, image, canvas, initial, s, n);
    assert offs[..n] == offs;
    assert names[..n] == names;
    assert ds[..|ds| - 1] == offs;
    var t := ApplyAll(s, offs).value;
    var d := ds[|ds| - 1];
    assert d == CanvasDraw(cfg, n, image, canvas, initial);
    var f := Filtered(s.original, kernels, names);
    ClosingStep(cfg, n, image, canvas, initial, t, f);
  }

  /** The closing pass paints the opaque copy of the texture it reads over the canvas. */
  lemma ClosingStep(cfg: Config, n: nat, image: Size, canvas: Size, initial: Size, t: Surfaces, f: Image)
    requires ViewportFor(cfg, canvas, initial) == canvas
    requires Ready(t, image, canvas) && Current(t, n) == Some(f)
    ensures Apply(t, CanvasDraw(cfg, n, image, canvas, initial)) == Some(t.(canvas := Paint(t.canvas, Opaque(f))))
  {
    var d := CanvasDraw(cfg, n, image, canvas, initial);
    assert d.viewport == canvas == d.resolution;
    assert Sample(t, d.source) == Some(f);
    IdentityPassIsOpaqueCopy(f);
  }

  /**
   * With nothing checked, the canvas shows the original, opaque, whenever
   * the closing pass's viewport is the canvas size: always in the copy that
   * sets the viewport, and in the other when the viewport in force is the
   * canvas size.
   */
  lemma NothingCheckedShowsOriginal(cfg: Config, kernels: Table, image: Size, canvas: Size, initial: Size, s: Surfaces)
    requires ViewportFor(cfg, canvas, initial) == canvas
    requires WellFormed(kernels) && Ready(s, image, canvas)
    ensures var r := ApplyAll(s, ExpectedDraws(cfg, kernels, [], image, canvas, initial));
      r.Some? && r.value.canvas == Paint(s.canvas, Opaque(s.original))
  {
    ChainFiltersOriginal(cfg, kernels, [], image, canvas, initial, s);
  }
}
