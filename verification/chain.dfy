/**
 * Consequences of `Executor.DrawEffectsPerformsChain` that the two copies
 * of the pipeline rely on: pass order, ping-pong between the two pool
 * slots, no pass sampling the texture it renders into, the viewport each
 * copy leaves in force, and menu rows never naming an unknown kernel.
 */
module Chain {
  import opened Common
  import opened Kernels
  import opened Executor

  /** The draws one `drawEffects` call performs, entered in GL state `s0`. */
  function DrawsOf(cfg: Config, kernels: Table, rows: seq<Row>, image: Size, canvas: Size, s0: GLState): seq<Draw>
    requires WellFormed(kernels)
  {
    Draws(s0, DrawEffects(cfg, kernels, rows, image, canvas).trace)
  }

  /** A draw that samples the texture its own framebuffer renders into. */
  predicate FeedbackLoop(d: Draw)
  {
    WrittenTexture(d.target) == Some(d.source)
  }

  /**
   * The shape of every chain: pass i of the n checked rows renders with
   * the i-th checked kernel into `framebuffers[i % 2]`, unflipped, at the
   * image size; the first pass samples the original and every later pass
   * (the canvas pass included) samples the texture the previous pass
   * wrote; no pass samples its own target; the last draw is the identity
   * kernel onto the canvas, flipped, at the canvas size.
   */
  lemma ChainShape(cfg: Config, kernels: Table, rows: seq<Row>, image: Size, canvas: Size, s0: GLState)
    requires WellFormed(kernels) && AllKnown(kernels, Checked(rows))
    ensures var ds := DrawsOf(cfg, kernels, rows, image, canvas, s0);
      var names := Checked(rows);
      && |ds| == |names| + 1
      && (forall i :: 0 <= i < |names| ==>
            && ds[i].target == Framebuffer(i % 2)
            && ds[i].kernel == kernels[names[i]]
            && ds[i].weight == ComputeKernelWeight(kernels[names[i]])
            && ds[i].flipY == 1 && ds[i].resolution == image)
      && ds[0].source == OriginalTexture
      && (forall i :: 0 < i < |ds| ==> WrittenTexture(ds[i - 1].target) == Some(ds[i].source))
      && (forall i :: 0 <= i < |ds| ==> !FeedbackLoop(ds[i]) && ds[i].weight > 0 && ds[i].textureSize == image)
      && ds[|names|].target == Canvas && ds[|names|].kernel == Normal && ds[|names|].weight == 1
      && ds[|names|].flipY == -1 && ds[|names|].resolution == canvas
  {
    DrawEffectsPerformsChain(cfg, kernels, rows, image, canvas, s0);
    ExpectedShape(cfg, kernels, Checked(rows), image, canvas, s0.viewport);
  }

  lemma ExpectedShape(cfg: Config, kernels: Table, names: seq<string>, image: Size, canvas: Size, initial: Size)
    requires WellFormed(kernels) && AllKnown(kernels, names)
    ensures var ds := ExpectedDraws(cfg, kernels, names, image, canvas, initial);
      && |ds| == |names| + 1
      && (forall i :: 0 <= i < |names| ==>
            && ds[i].target == Framebuffer(i % 2)
            && ds[i].kernel == kernels[names[i]]
            && ds[i].weight == ComputeKernelWeight(kernels[names[i]])
            && ds[i].flipY == 1 && ds[i].resolution == image)
      && ds[0].source == OriginalTexture
      && (forall i :: 0 < i < |ds| ==> WrittenTexture(ds[i - 1].target) == Some(ds[i].source))
      && (forall i :: 0 <= i < |ds| ==> !FeedbackLoop(ds[i]) && ds[i].weight > 0 && ds[i].textureSize == image)
      && ds[|names|].target == Canvas && ds[|names|].kernel == Normal && ds[|names|].weight == 1
      && ds[|names|].flipY == -1 && ds[|names|].resolution == canvas
  {
    ExpectedElements(cfg, kernels, names, image, canvas, initial);
    ExpectedLinks(cfg, kernels, names, image, canvas, initial);
    ExpectedNoFeedback(cfg, kernels, names, image, canvas, initial);
  }

  /** Each draw samples the texture the previous one wrote. */
  lemma ExpectedLinks(cfg: Config, kernels: Table, names: seq<string>, image: Size, canvas: Size, initial: Size)
    requires WellFormed(kernels) && AllKnown(kernels, names)
    ensures var ds := ExpectedDraws(cfg, kernels, names, image, canvas, initial);
      forall i :: 0 < i < |ds| ==> WrittenTexture(ds[i - 1].target) == Some(ds[i].source)
  {
    var ds := ExpectedDraws(cfg, kernels, names, image, canvas, initial);
    ExpectedElements(cfg, kernels, names, image, canvas, initial);
    forall i | 0 < i < |ds|
      ensures WrittenTexture(ds[i - 1].target) == Some(ds[i].source)
    {
      assert ds[i - 1].target == Framebuffer((i - 1) % 2);
    }
  }

  /** No draw samples the texture it writes; every weight is positive; every draw samples at the image size. */
  lemma ExpectedNoFeedback(cfg: Config, kernels: Table, names: seq<string>, image: Size, canvas: Size, initial: Size)
    requires WellFormed(kernels) && AllKnown(kernels, names)
    ensures var ds := ExpectedDraws(cfg, kernels, names, image, canvas, initial);
      forall i :: 0 <= i < |ds| ==> !FeedbackLoop(ds[i]) && ds[i].weight > 0 && ds[i].textureSize == image
  {
    var ds := ExpectedDraws(cfg, kernels, names, image, canvas, initial);
    var n := |names|;
    ExpectedElements(cfg, kernels, names, image, canvas, initial);
    forall i | 0 <= i < |ds|
      ensures !FeedbackLoop(ds[i]) && ds[i].weight > 0 && ds[i].textureSize == image
    {
      if 0 < i < n {
        assert ds[i].target == Framebuffer(i % 2);
        assert ds[i].source == PoolTexture((i - 1) % 2);
        assert (i - 1) % 2 != i % 2;
      }
    }
  }

  /** The reference draws, element by element. */
  lemma ExpectedElements(cfg: Config, kernels: Table, names: seq<string>, image: Size, canvas: Size, initial: Size)
    requires WellFormed(kernels) && AllKnown(kernels, names)
    ensures var ds := ExpectedDraws(cfg, kernels, names, image, canvas, initial);
      && |ds| == |names| + 1
      && (forall i :: 0 <= i < |names| ==> ds[i] == OffscreenDraw(cfg, kernels, names[i], i, image, initial))
      && ds[|names|] == CanvasDraw(cfg, |names|, image, canvas, initial)
  {
  }

  /** With no row checked, the only draw copies the original straight onto the canvas. */
  lemma NothingCheckedCopiesOriginal(cfg: Config, kernels: Table, rows: seq<Row>, image: Size, canvas: Size, s0: GLState)
    requires WellFormed(kernels) && Checked(rows) == []
    ensures DrawsOf(cfg, kernels, rows, image, canvas, s0) ==
      [Draw(Canvas, OriginalTexture, Normal, 1, -1, canvas,
            ViewportFor(cfg, canvas, s0.viewport), image, 6)]
  {
    DrawEffectsPerformsChain(cfg, kernels, rows, image, canvas, s0);
  }

  /**
   * In the copy whose `setFramebuffer` sets the viewport, every draw's
   * viewport equals its resolution uniform.
   */
  lemma ViewportFollowsResolution(kernels: Table, rows: seq<Row>, image: Size, canvas: Size, s0: GLState)
    requires WellFormed(kernels) && AllKnown(kernels, Checked(rows))
    ensures forall d :: d in DrawsOf(Semestralka, kernels, rows, image, canvas, s0) ==>
      d.viewport == d.resolution
  {
    DrawEffectsPerformsChain(Semestralka, kernels, rows, image, canvas, s0);
    ExpectedViewports(Semestralka, kernels, Checked(rows), image, canvas, s0.viewport);
  }

  /**
   * In the copy whose `setFramebuffer` does not set the viewport, every
   * draw runs under the viewport that was in force on entry.
   */
  lemma ViewportNeverSet(kernels: Table, rows: seq<Row>, image: Size, canvas: Size, s0: GLState)
    requires WellFormed(kernels) && AllKnown(kernels, Checked(rows))
    ensures forall d :: d in DrawsOf(WebGLFilters, kernels, rows, image, canvas, s0) ==>
      d.viewport == s0.viewport
  {
    DrawEffectsPerformsChain(WebGLFilters, kernels, rows, image, canvas, s0);
    ExpectedViewports(WebGLFilters, kernels, Checked(rows), image, canvas, s0.viewport);
  }

  /** Each reference draw runs under the viewport `setFramebuffer` leaves for its resolution. */
  lemma ExpectedViewports(cfg: Config, kernels: Table, names: seq<string>, image: Size, canvas: Size, initial: Size)
    requires WellFormed(kernels) && AllKnown(kernels, names)
    ensures forall d :: d in ExpectedDraws(cfg, kernels, names, image, canvas, initial) ==>
      d.viewport == ViewportFor(cfg, d.resolution, initial)
  {
    var ds := ExpectedDraws(cfg, kernels, names, image, canvas, initial);
    ExpectedElements(cfg, kernels, names, image, canvas, initial);
    forall d | d in ds
      ensures d.viewport == ViewportFor(cfg, d.resolution, initial)
    {
      var i :| 0 <= i < |ds| && ds[i] == d;
    }
  }

  /**
   * The copy without `gl.viewport`: with any table that has `sharpness`
   * (its own does), a 640x480 image drawn in a context whose initial
   * viewport is 300x150 gets an offscreen pass whose viewport (300x150) is
   * not its resolution (640x480), so the rectangle is squeezed into part
   * of the 640x480 texture.
   */
  lemma StaleViewportWitness(kernels: Table, s0: GLState)
    requires WellFormed(kernels) && "sharpness" in kernels
    requires s0.viewport == Size(300, 150)
    ensures var ds := DrawsOf(WebGLFilters, kernels, [Row("sharpness", true)], Size(640, 480), Size(300, 150), s0);
      |ds| == 2 && ds[0].target == Framebuffer(0) && ds[0].viewport != ds[0].resolution
  {
    var rows := [Row("sharpness", true)];
    assert Checked(rows) == ["sharpness"];
    ChainShape(WebGLFilters, kernels, rows, Size(640, 480), Size(300, 150), s0);
    ViewportNeverSet(kernels, rows, Size(640, 480), Size(300, 150), s0);
    var ds := DrawsOf(WebGLFilters, kernels, rows, Size(640, 480), Size(300, 150), s0);
    assert ds[0] in ds;
  }

  /** The clear at the start of one copy's `drawEffects` clears whatever framebuffer is bound on entry. */
  lemma ClearActsOnBoundFramebuffer(cfg: Config, kernels: Table, rows: seq<Row>, image: Size, canvas: Size, s0: GLState)
    requires WellFormed(kernels) && AllKnown(kernels, Checked(rows))
    ensures Clears(s0, DrawEffects(cfg, kernels, rows, image, canvas).trace) ==
      (if cfg.clearsFirst then [s0.framebuffer] else [])
  {
    DrawEffectsPerformsChain(cfg, kernels, rows, image, canvas, s0);
  }

  /** The rows `drawMenu` builds: one per effect, the checkbox value being the effect name. */
  function MenuRows(cfg: Config, ticks: seq<bool>): (rows: seq<Row>)
    requires |ticks| == |EffectNames(cfg)|
    ensures |rows| == |ticks|
    ensures forall i :: 0 <= i < |rows| ==>
      rows[i].name == EffectNames(cfg)[i] && rows[i].checked == ticks[i]
  {
    seq(|ticks|, i requires 0 <= i < |ticks| => Row(EffectNames(cfg)[i], ticks[i]))
  }

  lemma {:induction false} CheckedAreRowNames(rows: seq<Row>)
    ensures forall name :: name in Checked(rows) ==> exists i :: 0 <= i < |rows| && rows[i].name == name
    decreases |rows|
  {
    if |rows| > 0 {
      CheckedAreRowNames(rows[1..]);
      forall name | name in Checked(rows)
        ensures exists i :: 0 <= i < |rows| && rows[i].name == name
      {
        if rows[0].checked && name == rows[0].name {
          assert rows[0].name == name;
        } else {
          assert name in Checked(rows[1..]);
          var i :| 0 <= i < |rows[1..]| && rows[1..][i].name == name;
          assert rows[i + 1].name == name;
        }
      }
    }
  }

  /**
   * Whatever boxes are ticked, every checkbox value is a registered kernel,
   * so `drawEffects` on the menu's rows never throws and always ends with
   * the canvas pass.
   */
  lemma MenuNeverFails(cfg: Config, ticks: seq<bool>, image: Size, canvas: Size, s0: GLState)
    requires |ticks| == |EffectNames(cfg)|
    ensures DrawEffects(cfg, KernelTable(cfg), MenuRows(cfg, ticks), image, canvas).failure == None
    ensures var ds := DrawsOf(cfg, KernelTable(cfg), MenuRows(cfg, ticks), image, canvas, s0);
      |ds| > 0 && ds[|ds| - 1].target == Canvas
  {
    BuiltinTableWellFormed(cfg);
    MenuRowsKnown(cfg, ticks);
    KnownRowsComplete(cfg, KernelTable(cfg), MenuRows(cfg, ticks), image, canvas, s0);
  }

  lemma KnownRowsComplete(cfg: Config, kernels: Table, rows: seq<Row>, image: Size, canvas: Size, s0: GLState)
    requires WellFormed(kernels) && AllKnown(kernels, Checked(rows))
    ensures DrawEffects(cfg, kernels, rows, image, canvas).failure == None
    ensures var ds := DrawsOf(cfg, kernels, rows, image, canvas, s0);
      |ds| > 0 && ds[|ds| - 1].target == Canvas
  {
    DrawEffectsPerformsChain(cfg, kernels, rows, image, canvas, s0);
    ChainShape(cfg, kernels, rows, image, canvas, s0);
  }

  lemma MenuRowsKnown(cfg: Config, ticks: seq<bool>)
    requires |ticks| == |EffectNames(cfg)|
    ensures AllKnown(KernelTable(cfg), Checked(MenuRows(cfg, ticks)))
  {
    var rows := MenuRows(cfg, ticks);
    EffectsAreKernels(cfg);
    CheckedAreRowNames(rows);
    forall name | name in Checked(rows) ensures name in KernelTable(cfg)
    {
      var i :| 0 <= i < |rows| && rows[i].name == name;
      assert name == EffectNames(cfg)[i];
    }
  }
}
