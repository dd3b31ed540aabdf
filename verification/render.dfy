/**
 * `render(image)`: write the rectangle and the texture coordinates,
 * allocate the pool, then run `drawEffects`.  The GL state `drawEffects`
 * starts in is the one the allocation leaves behind.
 */
module Render {
  import opened Common
  import opened Kernels
  import opened Executor
  import opened Pool
  import Geometry
  import Chain

  /** Everything one `render` call produces. */
  datatype Frame = Frame(
    positions: seq<Geometry.Vec2>, texcoords: seq<Geometry.Vec2>,
    pool: Pool, entry: GLState, run: Run)

  /** The GL object a pass samples, if the pool has it. */
  function TextureId(p: Pool, src: Source): Option<nat>
  {
    match src
    case OriginalTexture => Some(p.original.id)
    case PoolTexture(slot) => if slot < |p.textures| then Some(p.textures[slot].id) else None
  }

  /** The texture attached to a pass's target, if the target is a pool framebuffer. */
  function AttachmentOf(p: Pool, t: Target): Option<nat>
  {
    match t
    case Canvas => None
    case Framebuffer(slot) => if slot < |p.framebuffers| then Some(p.framebuffers[slot].attachment) else None
  }

  /** A draw whose source and target are pool slots (or the original / the canvas) and that is no feedback loop touches two different GL objects. */
  lemma DrawAvoidsAttachment(p: Pool, size: Size, src: Source, tgt: Target)
    requires PoolShape(p, size) && Distinct(Handles(p))
    requires src.PoolTexture? ==> src.slot < 2
    requires tgt.Framebuffer? ==> tgt.slot < 2
    requires WrittenTexture(tgt) != Some(src)
    ensures TextureId(p, src).Some?
    ensures tgt.Framebuffer? ==> AttachmentOf(p, tgt).Some? && AttachmentOf(p, tgt) != TextureId(p, src)
  {
    var h := Handles(p);
    assert h[0] != h[1] && h[0] != h[3] && h[1] != h[3];
  }

  /**
   * No draw of a chain samples the GL texture object attached to the
   * framebuffer it renders into, and every pool slot a draw names exists.
   */
  lemma NoDrawSamplesItsAttachment(
    cfg: Config, kernels: Table, names: seq<string>, image: Size, canvas: Size, initial: Size, p: Pool)
    requires WellFormed(kernels) && AllKnown(kernels, names)
    requires PoolShape(p, image) && Distinct(Handles(p))
    ensures forall d :: d in ExpectedDraws(cfg, kernels, names, image, canvas, initial) ==>
      && d.vertices == Geometry.VertexCount
      && TextureId(p, d.source).Some?
      && (d.target.Framebuffer? ==> AttachmentOf(p, d.target).Some? && AttachmentOf(p, d.target) != TextureId(p, d.source))
  {
    var ds := ExpectedDraws(cfg, kernels, names, image, canvas, initial);
    var n := |names|;
    Chain.ExpectedShape(cfg, kernels, names, image, canvas, initial);
    forall d | d in ds
      ensures && d.vertices == Geometry.VertexCount
              && TextureId(p, d.source).Some?
              && (d.target.Framebuffer? ==> AttachmentOf(p, d.target).Some? && AttachmentOf(p, d.target) != TextureId(p, d.source))
    {
      var i :| 0 <= i < |ds| && ds[i] == d;
      if i < n {
        assert d == OffscreenDraw(cfg, kernels, names[i], i, image, initial);
      } else {
        assert d == CanvasDraw(cfg, n, image, canvas, initial);
      }
      assert !Chain.FeedbackLoop(ds[i]);
      DrawAvoidsAttachment(p, image, d.source, d.target);
    }
  }

  /** `drawEffects` run on a pool: the reference draws, and none samples its own target's texture. */
  lemma ChainOnPool(cfg: Config, kernels: Table, rows: seq<Row>, image: Size, canvas: Size, s: GLState, p: Pool)
    requires WellFormed(kernels) && AllKnown(kernels, Checked(rows))
    requires PoolShape(p, image) && Distinct(Handles(p))
    ensures var run := DrawEffects(cfg, kernels, rows, image, canvas);
      && run.failure == None
      && Draws(s, run.trace) == ExpectedDraws(cfg, kernels, Checked(rows), image, canvas, s.viewport)
      && Clears(s, run.trace) == (if cfg.clearsFirst then [s.framebuffer] else [])
      && (forall d :: d in Draws(s, run.trace) ==>
            && d.vertices == Geometry.VertexCount
            && TextureId(p, d.source).Some?
            && (d.target.Framebuffer? ==> AttachmentOf(p, d.target) != TextureId(p, d.source)))
  {
    DrawEffectsPerformsChain(cfg, kernels, rows, image, canvas, s);
    NoDrawSamplesItsAttachment(cfg, kernels, Checked(rows), image, canvas, s.viewport, p);
  }

  /**
   * `render(image)` for a canvas of size `canvas`, entered in GL state `s`
   * with `next` the first GL handle not yet handed out.
   */
  method Render(cfg: Config, kernels: Table, next: nat, image: Size, rows: seq<Row>, canvas: Size, s: GLState)
    returns (f: Frame, next': nat)
    requires WellFormed(kernels)
    ensures |f.positions| == |f.texcoords| == Geometry.VertexCount
    ensures image.w != 0 && image.h != 0 ==> forall k :: 0 <= k < Geometry.VertexCount ==>
      f.texcoords[k] == Geometry.Vec2(f.positions[k].x / image.w as real, f.positions[k].y / image.h as real)
    ensures PoolShape(f.pool, image) && Distinct(Handles(f.pool))
    ensures forall h :: h in Handles(f.pool) ==> next <= h < next'
    ensures f.entry.framebuffer == Framebuffer(1) && f.entry.viewport == s.viewport
    ensures AllKnown(kernels, Checked(rows)) ==>
      && f.run.failure == None
      && Draws(f.entry, f.run.trace) == ExpectedDraws(cfg, kernels, Checked(rows), image, canvas, s.viewport)
      && Clears(f.entry, f.run.trace) == (if cfg.clearsFirst then [Framebuffer(1)] else [])
      && (forall d :: d in Draws(f.entry, f.run.trace) ==>
            && d.vertices == |f.positions|
            && TextureId(f.pool, d.source).Some?
            && (d.target.Framebuffer? ==> AttachmentOf(f.pool, d.target) != TextureId(f.pool, d.source)))
  {
    var positions := Geometry.SetRectangle(0.0, 0.0, image.w as real, image.h as real);
    if image.w != 0 && image.h != 0 {
      Geometry.TexCoordsNormalisePositions(0.0, 0.0, image.w as real, image.h as real);
    }
    var pool, n, binds := AllocatePool(next, image);
    AllocationBindsEffect(s);
    var entry := Exec(s, binds);
    var run := DrawEffects(cfg, kernels, rows, image, canvas);
    if AllKnown(kernels, Checked(rows)) {
      ChainOnPool(cfg, kernels, rows, image, canvas, entry, pool);
    }
    f := Frame(positions, Geometry.TexCoords, pool, entry, run);
    next' := n;
  }

  /**
   * Two successive `render` calls share no GL object: the pool and the
   * original texture are recreated each time.
   */
  lemma SuccessivePoolsDisjoint(p1: Pool, p2: Pool, next1: nat, next2: nat, next3: nat)
    requires |p1.textures| == 2 && |p1.framebuffers| == 2
    requires |p2.textures| == 2 && |p2.framebuffers| == 2
    requires forall h :: h in Handles(p1) ==> next1 <= h < next2
    requires forall h :: h in Handles(p2) ==> next2 <= h < next3
    ensures forall h :: h in Handles(p1) ==> h !in Handles(p2)
  {
  }
}
