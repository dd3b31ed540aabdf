/**
 * The effect-chain executor (`drawEffects`, `setFramebuffer`,
 * `drawWithKernel`).  Every `gl.*` call the executor makes is recorded as
 * a `Cmd`; `Exec`, `Draws` and `Clears` replay a command trace against the
 * GL state those calls change and report what each `drawArrays` and
 * `clear` acted on.  `ExpectedDraws` states, independently of the trace,
 * which draws a chain must perform.
 *
 * The kernel table is the global `kernels` of the source; here it is an
 * explicit parameter, and `Kernels.KernelTable` supplies the built-in one.
 */
module Executor {
  import opened Common
  import opened Kernels
  import Geometry

  /** One row of the effects menu: the checkbox value and whether it is ticked. */
  datatype Row = Row(name: string, checked: bool)

  /** A render target: the canvas (the null framebuffer) or `framebuffers[slot]`. */
  datatype Target = Canvas | Framebuffer(slot: nat)

  /** A texture a pass samples: the uploaded original or `textures[slot]`. */
  datatype Source = OriginalTexture | PoolTexture(slot: nat)

  /** The GL calls the executor makes, with their arguments. */
  datatype Cmd =
    | Clear                                    // gl.clearColor(0,0,0,0); gl.clear(COLOR_BUFFER_BIT)
    | UseProgram                               // gl.useProgram and the attribute set-up
    | SetTextureSize(textureSize: Size)        // u_textureSize
    | BindTexture(texture: Source)             // gl.bindTexture(TEXTURE_2D, ...)
    | SetFlipY(flipY: int)                     // u_flipY
    | BindFramebuffer(target: Target)          // gl.bindFramebuffer(FRAMEBUFFER, ...)
    | SetResolution(resolution: Size)          // u_resolution
    | SetViewport(viewport: Size)              // gl.viewport(0, 0, w, h)
    | SetKernel(kernel: seq<int>, weight: int) // u_kernel[0] and u_kernelWeight
    | DrawTriangles(count: nat)                // gl.drawArrays(TRIANGLES, 0, count)

  /** A kernel table: name to row-major coefficients. */
  type Table = map<string, seq<int>>

  /** The shape every kernel table of the source has. */
  ghost predicate WellFormed(kernels: Table)
  {
    && (forall name :: name in kernels ==> |kernels[name]| == 9)
    && "normal" in kernels && kernels["normal"] == Normal
  }

  lemma BuiltinTableWellFormed(cfg: Config)
    ensures WellFormed(KernelTable(cfg))
  {
  }

  /**
   * The outcome of one `drawEffects` call: the commands issued, and the
   * kernel name whose lookup threw, if one did.  A throw ends the call, so
   * the trace stops where the exception was raised.
   */
  datatype Run = Run(trace: seq<Cmd>, failure: Option<string>)

  /** The part of the GL state the executor's commands change. */
  datatype GLState = GLState(
    framebuffer: Target, texture: Source, textureSize: Size, flipY: int,
    resolution: Size, viewport: Size, kernel: seq<int>, weight: int)

  /** What one `drawArrays` call acted on. */
  datatype Draw = Draw(
    target: Target, source: Source, kernel: seq<int>, weight: int, flipY: int,
    resolution: Size, viewport: Size, textureSize: Size, vertices: nat)

  // ----- Replaying a trace -----

  function Step(s: GLState, c: Cmd): GLState
  {
    match c
    case Clear => s
    case UseProgram => s
    case SetTextureSize(z) => s.(textureSize := z)
    case BindTexture(t) => s.(texture := t)
    case SetFlipY(f) => s.(flipY := f)
    case BindFramebuffer(t) => s.(framebuffer := t)
    case SetResolution(z) => s.(resolution := z)
    case SetViewport(z) => s.(viewport := z)
    case SetKernel(k, w) => s.(kernel := k, weight := w)
    case DrawTriangles(_) => s
  }

  function DrawIn(s: GLState, count: nat): Draw
  {
    Draw(s.framebuffer, s.texture, s.kernel, s.weight, s.flipY,
         s.resolution, s.viewport, s.textureSize, count)
  }

  /** The GL state after a trace. */
  function Exec(s: GLState, cmds: seq<Cmd>): GLState
    decreases |cmds|
  {
    if |cmds| == 0 then s else Exec(Step(s, cmds[0]), cmds[1..])
  }

  /** The draws a trace performs, in order. */
  function Draws(s: GLState, cmds: seq<Cmd>): seq<Draw>
    decreases |cmds|
  {
    if |cmds| == 0 then []
    else
      (if cmds[0].DrawTriangles? then [DrawIn(s, cmds[0].count)] else [])
      + Draws(Step(s, cmds[0]), cmds[1..])
  }

  /** The framebuffers a trace clears, in order. */
  function Clears(s: GLState, cmds: seq<Cmd>): seq<Target>
    decreases |cmds|
  {
    if |cmds| == 0 then []
    else (if cmds[0].Clear? then [s.framebuffer] else []) + Clears(Step(s, cmds[0]), cmds[1..])
  }

  /** Replaying two traces one after the other is replaying their concatenation. */
  lemma {:induction false} ReplayAppend(s: GLState, a: seq<Cmd>, b: seq<Cmd>)
    ensures Exec(s, a + b) == Exec(Exec(s, a), b)
    ensures Draws(s, a + b) == Draws(s, a) + Draws(Exec(s, a), b)
    ensures Clears(s, a + b) == Clears(s, a) + Clears(Exec(s, a), b)
    decreases |a|
  {
    if |a| == 0 {
      assert a + b == b;
    } else {
      assert (a + b)[0] == a[0];
      assert (a + b)[1..] == a[1..] + b;
      ReplayAppend(Step(s, a[0]), a[1..], b);
    }
  }

  // ----- The executor -----

  /** The commands `drawEffects` issues before its loop. */
  function Prologue(cfg: Config, image: Size): (r: seq<Cmd>)
    ensures Clear in r <==> cfg.clearsFirst
  {
    (if cfg.clearsFirst then [Clear] else [])
    + [UseProgram, SetTextureSize(image), BindTexture(OriginalTexture), SetFlipY(1)]
  }

  /** `setFramebuffer(fbo, width, height)`. */
  function SetFramebuffer(cfg: Config, target: Target, size: Size): seq<Cmd>
  {
    [BindFramebuffer(target), SetResolution(size)]
    + (if cfg.setsViewport then [SetViewport(size)] else [])
  }

  /**
   * `drawWithKernel(name)`.  `kernels[name]` is undefined for a name
   * outside the table and `gl.uniform1fv` throws on it before anything is
   * drawn: that is `None`.
   */
  function DrawWithKernel(kernels: Table, name: string): (r: Option<seq<Cmd>>)
    requires WellFormed(kernels)
    ensures r.Some? <==> name in kernels
  {
    if name in kernels then
      var k := kernels[name];
      Some([SetKernel(k, ComputeKernelWeight(k)), DrawTriangles(Geometry.VertexCount)])
    else
      None
  }

  /** The state of the menu loop when it stops. */
  datatype Loop = Loop(cmds: seq<Cmd>, count: nat, failure: Option<string>)

  /** The menu loop of `drawEffects`, from the given row on, with `count` passes done. */
  function Passes(cfg: Config, kernels: Table, rows: seq<Row>, count: nat, image: Size): (r: Loop)
    requires WellFormed(kernels)
    ensures r.failure.Some? ==> r.failure.value in Checked(rows) && r.failure.value !in kernels
    ensures r.failure == None ==> r.count == count + |Checked(rows)|
    decreases |rows|
  {
    if |rows| == 0 then Loop([], count, None)
    else if !rows[0].checked then Passes(cfg, kernels, rows[1..], count, image)
    else
      var setup := SetFramebuffer(cfg, Framebuffer(count % 2), image);
      match DrawWithKernel(kernels, rows[0].name)
      case None => Loop(setup, count, Some(rows[0].name))
      case Some(draw) =>
        var rest := Passes(cfg, kernels, rows[1..], count + 1, image);
        Loop(setup + draw + [BindTexture(PoolTexture(count % 2))] + rest.cmds, rest.count, rest.failure)
  }

  /** The loop completes exactly when every checked row names a registered kernel. */
  lemma {:induction false} PassesFailure(cfg: Config, kernels: Table, rows: seq<Row>, count: nat, image: Size)
    requires WellFormed(kernels)
    ensures Passes(cfg, kernels, rows, count, image).failure == None <==> AllKnown(kernels, Checked(rows))
    decreases |rows|
  {
    if |rows| > 0 {
      PassesFailure(cfg, kernels, rows[1..], if rows[0].checked then count + 1 else count, image);
      var names := Checked(rows);
      assert names == (if rows[0].checked then [rows[0].name] else []) + Checked(rows[1..]);
      if rows[0].checked {
        assert rows[0].name in names;
      }
    }
  }

  /**
   * `drawEffects()`: the prologue, one pass per checked row, then the
   * identity pass onto the canvas with the y axis flipped.
   */
  function DrawEffects(cfg: Config, kernels: Table, rows: seq<Row>, image: Size, canvas: Size): (r: Run)
    requires WellFormed(kernels)
    ensures r.failure == None <==> AllKnown(kernels, Checked(rows))
    ensures r.failure.Some? ==> r.failure.value in Checked(rows) && r.failure.value !in kernels
  {
    PassesFailure(cfg, kernels, rows, 0, image);
    var loop := Passes(cfg, kernels, rows, 0, image);
    var head := Prologue(cfg, image) + loop.cmds;
    if loop.failure.Some? then Run(head, loop.failure)
    else
      var finish := [SetFlipY(-1)] + SetFramebuffer(cfg, Canvas, canvas);
      match DrawWithKernel(kernels, "normal")
      case None => Run(head + finish, Some("normal"))
      case Some(draw) => Run(head + (finish + draw), None)
  }

  // ----- What a chain must do -----

  /** The checkbox values of the checked rows, in row order. */
  function Checked(rows: seq<Row>): seq<string>
    decreases |rows|
  {
    if |rows| == 0 then []
    else (if rows[0].checked then [rows[0].name] else []) + Checked(rows[1..])
  }

  /** Every name in the list is a registered kernel. */
  ghost predicate AllKnown(kernels: Table, names: seq<string>)
  {
    forall name :: name in names ==> name in kernels
  }

  /** The texture pass i samples: the original first, then the one pass i - 1 wrote. */
  function ReadBefore(i: nat): Source
  {
    if i == 0 then OriginalTexture else PoolTexture((i - 1) % 2)
  }

  /** The texture a draw into `t` leaves its result in. */
  function WrittenTexture(t: Target): Option<Source>
  {
    match t
    case Canvas => None
    case Framebuffer(slot) => Some(PoolTexture(slot))
  }

  /** The viewport in force for a draw at `size`, given the context's initial viewport. */
  function ViewportFor(cfg: Config, size: Size, initial: Size): Size
  {
    if cfg.setsViewport then size else initial
  }

  /** Offscreen pass i of a chain, applying kernel `name`. */
  function OffscreenDraw(cfg: Config, kernels: Table, name: string, i: nat, image: Size, initial: Size): Draw
    requires WellFormed(kernels) && name in kernels
  {
    var k := kernels[name];
    Draw(Framebuffer(i % 2), ReadBefore(i), k, ComputeKernelWeight(k), 1,
         image, ViewportFor(cfg, image, initial), image, Geometry.VertexCount)
  }

  /** The closing pass of a chain of n passes: identity kernel, canvas, y flipped. */
  function CanvasDraw(cfg: Config, n: nat, image: Size, canvas: Size, initial: Size): Draw
  {
    Draw(Canvas, ReadBefore(n), Normal, 1, -1,
         canvas, ViewportFor(cfg, canvas, initial), image, Geometry.VertexCount)
  }

  /** The offscreen passes of a chain applying `names` in order, numbered from `from`. */
  function OffscreenDraws(cfg: Config, kernels: Table, names: seq<string>, from: nat, image: Size, initial: Size): seq<Draw>
    requires WellFormed(kernels) && AllKnown(kernels, names)
  {
    seq(|names|, i requires 0 <= i < |names| => OffscreenDraw(cfg, kernels, names[i], from + i, image, initial))
  }

  /** The draws a chain applying `names` in order must perform. */
  function ExpectedDraws(cfg: Config, kernels: Table, names: seq<string>, image: Size, canvas: Size, initial: Size): seq<Draw>
    requires WellFormed(kernels) && AllKnown(kernels, names)
  {
    OffscreenDraws(cfg, kernels, names, 0, image, initial) + [CanvasDraw(cfg, |names|, image, canvas, initial)]
  }

  // ----- What each group of calls does to the GL state -----

  lemma ReplayOne(s: GLState, c: Cmd)
    ensures Exec(s, [c]) == Step(s, c)
    ensures Draws(s, [c]) == (if c.DrawTriangles? then [DrawIn(s, c.count)] else [])
    ensures Clears(s, [c]) == (if c.Clear? then [s.framebuffer] else [])
  {
    assert [c][1..] == [];
  }

  /** Replaying `a` then the single command `c`. */
  lemma ReplaySnoc(s: GLState, a: seq<Cmd>, c: Cmd)
    ensures Exec(s, a + [c]) == Step(Exec(s, a), c)
    ensures Draws(s, a + [c]) == Draws(s, a) +
      (if c.DrawTriangles? then [DrawIn(Exec(s, a), c.count)] else [])
    ensures Clears(s, a + [c]) == Clears(s, a) +
      (if c.Clear? then [Exec(s, a).framebuffer] else [])
  {
    ReplayAppend(s, a, [c]);
    ReplayOne(Exec(s, a), c);
  }

  /** The prologue binds the original texture, sets the texture size and flipY = 1, and clears in one copy. */
  lemma PrologueEffect(cfg: Config, image: Size, s: GLState)
    ensures Exec(s, Prologue(cfg, image)) ==
      s.(texture := OriginalTexture, textureSize := image, flipY := 1)
    ensures Draws(s, Prologue(cfg, image)) == []
    ensures Clears(s, Prologue(cfg, image)) == (if cfg.clearsFirst then [s.framebuffer] else [])
  {
    var c0: seq<Cmd> := if cfg.clearsFirst then [Clear] else [];
    var setup := [UseProgram, SetTextureSize(image), BindTexture(OriginalTexture), SetFlipY(1)];
    assert Prologue(cfg, image) == c0 + setup;
    if cfg.clearsFirst { ReplayOne(s, Clear); } else { assert Exec(s, c0) == s; }
    SetupEffect(image, Exec(s, c0));
    ReplayAppend(s, c0, setup);
  }

  /** The four set-up calls of `drawEffects` after the optional clear. */
  lemma SetupEffect(image: Size, s: GLState)
    ensures var setup := [UseProgram, SetTextureSize(image), BindTexture(OriginalTexture), SetFlipY(1)];
      && Exec(s, setup) == s.(texture := OriginalTexture, textureSize := image, flipY := 1)
      && Draws(s, setup) == [] && Clears(s, setup) == []
  {
    var setup := [UseProgram, SetTextureSize(image), BindTexture(OriginalTexture), SetFlipY(1)];
    QuietTrace(s, setup);
    var t1 := setup[1..];
    var t2 := t1[1..];
    var t3 := t2[1..];
    assert t3 == [SetFlipY(1)] && t3[1..] == [];
    var s1 := Step(s, UseProgram);
    var s2 := Step(s1, SetTextureSize(image));
    var s3 := Step(s2, BindTexture(OriginalTexture));
    assert Exec(s3, t3) == s3.(flipY := 1);
    assert Exec(s2, t2) == Exec(s3, t3);
    assert Exec(s1, t1) == Exec(s2, t2);
    assert Exec(s, setup) == Exec(s1, t1);
  }

  /** A trace without draws or clears draws and clears nothing. */
  lemma {:induction false} QuietTrace(s: GLState, cmds: seq<Cmd>)
    requires forall c :: c in cmds ==> !c.DrawTriangles? && !c.Clear?
    ensures Draws(s, cmds) == [] && Clears(s, cmds) == []
    decreases |cmds|
  {
    if |cmds| > 0 {
      assert cmds[0] in cmds;
      forall c | c in cmds[1..] ensures !c.DrawTriangles? && !c.Clear? {
        assert c in cmds;
      }
      QuietTrace(Step(s, cmds[0]), cmds[1..]);
    }
  }

  /**
   * `setFramebuffer` binds the target and sets the resolution; the one
   * copy also sets the viewport.  Nothing else changes and nothing is drawn.
   */
  lemma SetFramebufferEffect(cfg: Config, target: Target, size: Size, s: GLState)
    ensures Exec(s, SetFramebuffer(cfg, target, size)) ==
      s.(framebuffer := target, resolution := size, viewport := ViewportFor(cfg, size, s.viewport))
    ensures Draws(s, SetFramebuffer(cfg, target, size)) == []
    ensures Clears(s, SetFramebuffer(cfg, target, size)) == []
  {
    var cmds := SetFramebuffer(cfg, target, size);
    QuietTrace(s, cmds);
    var s1 := s.(framebuffer := target);
    var s2 := s1.(resolution := size);
    assert cmds[0] == BindFramebuffer(target) && cmds[1..][0] == SetResolution(size);
    assert Exec(s, cmds) == Exec(s1, cmds[1..]);
    assert Exec(s1, cmds[1..]) == Exec(s2, cmds[1..][1..]);
    if cfg.setsViewport {
      assert cmds[1..][1..] == [SetViewport(size)];
      assert cmds[1..][1..][1..] == [];
      assert Exec(s2, cmds[1..][1..]) == s2.(viewport := size);
    } else {
      assert cmds[1..][1..] == [];
    }
  }

  /** The commands of `drawWithKernel` for a registered kernel draw once with that kernel. */
  lemma KernelDrawEffect(k: seq<int>, w: int, s: GLState)
    ensures Exec(s, [SetKernel(k, w), DrawTriangles(Geometry.VertexCount)]) == s.(kernel := k, weight := w)
    ensures Draws(s, [SetKernel(k, w), DrawTriangles(Geometry.VertexCount)]) ==
      [DrawIn(s.(kernel := k, weight := w), Geometry.VertexCount)]
    ensures Clears(s, [SetKernel(k, w), DrawTriangles(Geometry.VertexCount)]) == []
  {
    ReplayOne(s, SetKernel(k, w));
    ReplaySnoc(s, [SetKernel(k, w)], DrawTriangles(Geometry.VertexCount));
    assert [SetKernel(k, w)] + [DrawTriangles(Geometry.VertexCount)] ==
      [SetKernel(k, w), DrawTriangles(Geometry.VertexCount)];
  }

  /** The commands of one checked row with a registered kernel. */
  function PassCmds(cfg: Config, k: seq<int>, count: nat, image: Size): seq<Cmd>
    requires |k| > 0
  {
    SetFramebuffer(cfg, Framebuffer(count % 2), image)
    + [SetKernel(k, ComputeKernelWeight(k)), DrawTriangles(Geometry.VertexCount)]
    + [BindTexture(PoolTexture(count % 2))]
  }

  /** The loop invariant of `drawEffects`'s menu loop after `count` passes. */
  ghost predicate LoopState(cfg: Config, s: GLState, count: nat, image: Size, initial: Size)
  {
    && s.texture == ReadBefore(count) && s.flipY == 1 && s.textureSize == image
    && (!cfg.setsViewport ==> s.viewport == initial)
  }

  lemma OnePassEffect(cfg: Config, k: seq<int>, count: nat, image: Size, initial: Size, s: GLState)
    requires |k| > 0
    requires LoopState(cfg, s, count, image, initial)
    ensures Draws(s, PassCmds(cfg, k, count, image)) ==
      [Draw(Framebuffer(count % 2), ReadBefore(count), k, ComputeKernelWeight(k), 1,
            image, ViewportFor(cfg, image, initial), image, Geometry.VertexCount)]
    ensures Clears(s, PassCmds(cfg, k, count, image)) == []
    ensures LoopState(cfg, Exec(s, PassCmds(cfg, k, count, image)), count + 1, image, initial)
  {
    var setup := SetFramebuffer(cfg, Framebuffer(count % 2), image);
    var draw := [SetKernel(k, ComputeKernelWeight(k)), DrawTriangles(Geometry.VertexCount)];
    SetFramebufferEffect(cfg, Framebuffer(count % 2), image, s);
    KernelDrawEffect(k, ComputeKernelWeight(k), Exec(s, setup));
    ReplayAppend(s, setup, draw);
    ReplaySnoc(s, setup + draw, BindTexture(PoolTexture(count % 2)));
  }

  // ----- The executor performs exactly the expected draws -----

  /** Prepending pass `from` to the passes numbered from `from + 1`. */
  lemma ShiftPasses(cfg: Config, kernels: Table, name: string, tail: seq<string>, from: nat, image: Size, initial: Size)
    requires WellFormed(kernels) && name in kernels && AllKnown(kernels, tail)
    ensures AllKnown(kernels, [name] + tail)
    ensures [OffscreenDraw(cfg, kernels, name, from, image, initial)]
      + OffscreenDraws(cfg, kernels, tail, from + 1, image, initial)
      == OffscreenDraws(cfg, kernels, [name] + tail, from, image, initial)
  {
    var a := [OffscreenDraw(cfg, kernels, name, from, image, initial)]
      + OffscreenDraws(cfg, kernels, tail, from + 1, image, initial);
    var b := OffscreenDraws(cfg, kernels, [name] + tail, from, image, initial);
    assert |a| == |b|;
    forall i | 0 <= i < |a| ensures a[i] == b[i]
    {
      if i > 0 {
        assert ([name] + tail)[i] == tail[i - 1];
      }
    }
  }

  lemma {:induction false} PassesPerformCheckedRows(
    cfg: Config, kernels: Table, rows: seq<Row>, count: nat, image: Size, initial: Size, s: GLState)
    requires WellFormed(kernels) && AllKnown(kernels, Checked(rows))
    requires LoopState(cfg, s, count, image, initial)
    ensures var r := Passes(cfg, kernels, rows, count, image);
      && r.failure == None
      && r.count == count + |Checked(rows)|
      && Draws(s, r.cmds) == OffscreenDraws(cfg, kernels, Checked(rows), count, image, initial)
      && Clears(s, r.cmds) == []
      && LoopState(cfg, Exec(s, r.cmds), r.count, image, initial)
    decreases |rows|
  {
    if |rows| == 0 {
    } else if !rows[0].checked {
      assert Checked(rows) == Checked(rows[1..]);
      PassesPerformCheckedRows(cfg, kernels, rows[1..], count, image, initial, s);
    } else {
      var name := rows[0].name;
      var tail := Checked(rows[1..]);
      assert Checked(rows) == [name] + tail;
      assert name in Checked(rows);
      assert AllKnown(kernels, tail) by {
        forall n | n in tail ensures n in kernels { assert n in Checked(rows); }
      }
      var pass := PassCmds(cfg, kernels[name], count, image);
      OnePassEffect(cfg, kernels[name], count, image, initial, s);
      var s1 := Exec(s, pass);
      PassesPerformCheckedRows(cfg, kernels, rows[1..], count + 1, image, initial, s1);
      var rest := Passes(cfg, kernels, rows[1..], count + 1, image);
      assert Passes(cfg, kernels, rows, count, image).cmds == pass + rest.cmds;
      ReplayAppend(s, pass, rest.cmds);
      ShiftPasses(cfg, kernels, name, tail, count, image, initial);
    }
  }

  /**
   * When every checked row names a registered kernel, `drawEffects`
   * performs exactly the expected draws: one offscreen pass per checked
   * row in row order, then one identity pass onto the canvas.  The clear
   * of the one copy acts on whatever framebuffer was bound on entry.
   */
  lemma DrawEffectsPerformsChain(cfg: Config, kernels: Table, rows: seq<Row>, image: Size, canvas: Size, s0: GLState)
    requires WellFormed(kernels) && AllKnown(kernels, Checked(rows))
    ensures var r := DrawEffects(cfg, kernels, rows, image, canvas);
      && r.failure == None
      && Draws(s0, r.trace) == ExpectedDraws(cfg, kernels, Checked(rows), image, canvas, s0.viewport)
      && Clears(s0, r.trace) == (if cfg.clearsFirst then [s0.framebuffer] else [])
  {
    var initial := s0.viewport;
    var pro := Prologue(cfg, image);
    var loop := Passes(cfg, kernels, rows, 0, image);
    var close := ClosingCmds(cfg, canvas);
    var n := |Checked(rows)|;
    PrologueAndPasses(cfg, kernels, rows, image, s0);
    CompletedRun(cfg, kernels, rows, image, canvas);
    var s2 := Exec(s0, pro + loop.cmds);
    ClosingPassEffect(cfg, n, image, canvas, initial, s2);
    ReplayAppend(s0, pro + loop.cmds, close);
    assert ExpectedDraws(cfg, kernels, Checked(rows), image, canvas, initial)
      == Draws(s0, pro + loop.cmds) + Draws(s2, close);
  }

  /** The commands before the closing pass: the prologue and one pass per checked row. */
  lemma PrologueAndPasses(cfg: Config, kernels: Table, rows: seq<Row>, image: Size, s0: GLState)
    requires WellFormed(kernels) && AllKnown(kernels, Checked(rows))
    ensures var loop := Passes(cfg, kernels, rows, 0, image);
      var cmds := Prologue(cfg, image) + loop.cmds;
      && loop.failure == None
      && Draws(s0, cmds) == OffscreenDraws(cfg, kernels, Checked(rows), 0, image, s0.viewport)
      && Clears(s0, cmds) == (if cfg.clearsFirst then [s0.framebuffer] else [])
      && LoopState(cfg, Exec(s0, cmds), |Checked(rows)|, image, s0.viewport)
  {
    var pro := Prologue(cfg, image);
    var loop := Passes(cfg, kernels, rows, 0, image);
    var s1 := Exec(s0, pro);
    PrologueEffect(cfg, image, s0);
    assert LoopState(cfg, s1, 0, image, s0.viewport);
    PassesPerformCheckedRows(cfg, kernels, rows, 0, image, s0.viewport, s1);
    ReplayAppend(s0, pro, loop.cmds);
    var offscreen := OffscreenDraws(cfg, kernels, Checked(rows), 0, image, s0.viewport);
    assert Draws(s0, pro + loop.cmds) == [] + offscreen;
    assert [] + offscreen == offscreen;
    assert Clears(s0, pro + loop.cmds) == Clears(s0, pro) + [];
  }

  /** A run whose loop did not throw ends with the closing commands. */
  lemma CompletedRun(cfg: Config, kernels: Table, rows: seq<Row>, image: Size, canvas: Size)
    requires WellFormed(kernels) && Passes(cfg, kernels, rows, 0, image).failure == None
    ensures DrawEffects(cfg, kernels, rows, image, canvas) ==
      Run(Prologue(cfg, image) + Passes(cfg, kernels, rows, 0, image).cmds + ClosingCmds(cfg, canvas), None)
  {
    BuiltinKernelSums();
    assert ComputeKernelWeight(Normal) == 1;
    var finish := [SetFlipY(-1)] + SetFramebuffer(cfg, Canvas, canvas);
    var draw := [SetKernel(Normal, 1), DrawTriangles(Geometry.VertexCount)];
    assert DrawWithKernel(kernels, "normal") == Some(draw);
    assert finish + draw == ClosingCmds(cfg, canvas);
  }

  /** The commands after the loop: flip, bind the canvas, draw with the identity kernel. */
  function ClosingCmds(cfg: Config, canvas: Size): seq<Cmd>
  {
    [SetFlipY(-1)] + SetFramebuffer(cfg, Canvas, canvas)
    + [SetKernel(Normal, 1), DrawTriangles(Geometry.VertexCount)]
  }

  lemma ClosingPassEffect(cfg: Config, n: nat, image: Size, canvas: Size, initial: Size, s: GLState)
    requires LoopState(cfg, s, n, image, initial)
    ensures Draws(s, ClosingCmds(cfg, canvas)) == [CanvasDraw(cfg, n, image, canvas, initial)]
    ensures Clears(s, ClosingCmds(cfg, canvas)) == []
  {
    var flip := [SetFlipY(-1)];
    var bind := SetFramebuffer(cfg, Canvas, canvas);
    var draw := [SetKernel(Normal, 1), DrawTriangles(Geometry.VertexCount)];
    assert ClosingCmds(cfg, canvas) == flip + bind + draw;
    var s1 := s.(flipY := -1);
    ReplayOne(s, SetFlipY(-1));
    SetFramebufferEffect(cfg, Canvas, canvas, s1);
    ReplayAppend(s, flip, bind);
    var s2 := Exec(s, flip + bind);
    assert s2 == s1.(framebuffer := Canvas, resolution := canvas, viewport := ViewportFor(cfg, canvas, s.viewport));
    KernelDrawEffect(Normal, 1, s2);
    ReplayAppend(s, flip + bind, draw);
    assert DrawIn(s2.(kernel := Normal, weight := 1), Geometry.VertexCount) == CanvasDraw(cfg, n, image, canvas, initial);
  }

  lemma {:induction false} PassesStopAtUnknown(
    cfg: Config, kernels: Table, rows: seq<Row>, count: nat, image: Size, s: GLState, j: nat)
    requires WellFormed(kernels)
    requires j < |rows| && rows[j].checked && rows[j].name !in kernels
    requires AllKnown(kernels, Checked(rows[..j]))
    ensures var r := Passes(cfg, kernels, rows, count, image);
      && r.failure == Some(rows[j].name)
      && |Draws(s, r.cmds)| == |Checked(rows[..j])|
      && forall d :: d in Draws(s, r.cmds) ==> d.target.Framebuffer?
    decreases |rows|
  {
    var r := Passes(cfg, kernels, rows, count, image);
    if j == 0 {
      assert Checked(rows[..j]) == [];
      SetFramebufferEffect(cfg, Framebuffer(count % 2), image, s);
    } else {
      CheckedPrefix(kernels, rows, j);
      var names := Checked(rows[..j]);
      if !rows[0].checked {
        PassesStopAtUnknown(cfg, kernels, rows[1..], count, image, s, j - 1);
      } else {
        var name := rows[0].name;
        assert name in names;
        var s1 := Exec(s, PassCmds(cfg, kernels[name], count, image));
        PassesStopAtUnknown(cfg, kernels, rows[1..], count + 1, image, s1, j - 1);
        StopAfterPass(cfg, kernels, rows, count, image, s, j);
      }
    }
  }

  /** The checked names before row j are row 0's, if checked, then those of the rest before j. */
  lemma CheckedPrefix(kernels: Table, rows: seq<Row>, j: nat)
    requires 0 < j <= |rows| && AllKnown(kernels, Checked(rows[..j]))
    ensures Checked(rows[..j]) ==
      (if rows[0].checked then [rows[0].name] else []) + Checked(rows[1..][..j - 1])
    ensures AllKnown(kernels, Checked(rows[1..][..j - 1]))
  {
    var prefix := rows[..j];
    assert prefix[0] == rows[0] && prefix[1..] == rows[1..][..j - 1];
    var tail := Checked(rows[1..][..j - 1]);
    forall n | n in tail ensures n in kernels { assert n in Checked(prefix); }
  }

  /** A known checked first row adds its one framebuffer draw in front of the rest of the loop's. */
  lemma StopAfterPass(cfg: Config, kernels: Table, rows: seq<Row>, count: nat, image: Size, s: GLState, j: nat)
    requires WellFormed(kernels) && 0 < j < |rows|
    requires rows[0].checked && rows[0].name in kernels
    requires var s1 := Exec(s, PassCmds(cfg, kernels[rows[0].name], count, image));
      var rest := Passes(cfg, kernels, rows[1..], count + 1, image);
      && rest.failure == Some(rows[j].name)
      && |Draws(s1, rest.cmds)| == |Checked(rows[1..][..j - 1])|
      && forall d :: d in Draws(s1, rest.cmds) ==> d.target.Framebuffer?
    ensures var r := Passes(cfg, kernels, rows, count, image);
      && r.failure == Some(rows[j].name)
      && |Draws(s, r.cmds)| == 1 + |Checked(rows[1..][..j - 1])|
      && forall d :: d in Draws(s, r.cmds) ==> d.target.Framebuffer?
  {
    var k := kernels[rows[0].name];
    var pass := PassCmds(cfg, k, count, image);
    var rest := Passes(cfg, kernels, rows[1..], count + 1, image);
    var r := Passes(cfg, kernels, rows, count, image);
    assert r == Loop(pass + rest.cmds, rest.count, rest.failure) by {
      var draw := [SetKernel(k, ComputeKernelWeight(k)), DrawTriangles(Geometry.VertexCount)];
      assert DrawWithKernel(kernels, rows[0].name) == Some(draw);
    }
    var s1 := Exec(s, pass);
    var first := Draws(s, pass);
    assert |first| == 1 && first[0].target.Framebuffer? by {
      PassDrawsOnce(cfg, k, count, image, s);
    }
    assert Draws(s, r.cmds) == first + Draws(s1, rest.cmds) by {
      ReplayAppend(s, pass, rest.cmds);
    }
    FramebufferDrawsConcat(first, Draws(s1, rest.cmds));
  }

  lemma FramebufferDrawsConcat(a: seq<Draw>, b: seq<Draw>)
    requires forall d :: d in a ==> d.target.Framebuffer?
    requires forall d :: d in b ==> d.target.Framebuffer?
    ensures forall d :: d in a + b ==> d.target.Framebuffer?
  {
  }

  /** From any state, one pass draws exactly once, into its framebuffer. */
  lemma PassDrawsOnce(cfg: Config, k: seq<int>, count: nat, image: Size, s: GLState)
    requires |k| > 0
    ensures var ds := Draws(s, PassCmds(cfg, k, count, image));
      |ds| == 1 && ds[0].target == Framebuffer(count % 2)
  {
    var setup := SetFramebuffer(cfg, Framebuffer(count % 2), image);
    var draw := [SetKernel(k, ComputeKernelWeight(k)), DrawTriangles(Geometry.VertexCount)];
    SetFramebufferEffect(cfg, Framebuffer(count % 2), image, s);
    KernelDrawEffect(k, ComputeKernelWeight(k), Exec(s, setup));
    ReplayAppend(s, setup, draw);
    ReplaySnoc(s, setup + draw, BindTexture(PoolTexture(count % 2)));
  }

  /**
   * A checked row whose name is not a registered kernel makes
   * `drawEffects` throw: the passes of the checked rows before it are
   * drawn, nothing is drawn to the canvas, and the failure names that row.
   */
  lemma DrawEffectsAbortsOnUnknownKernel(
    cfg: Config, kernels: Table, rows: seq<Row>, image: Size, canvas: Size, s0: GLState, j: nat)
    requires WellFormed(kernels)
    requires j < |rows| && rows[j].checked && rows[j].name !in kernels
    requires AllKnown(kernels, Checked(rows[..j]))
    ensures var r := DrawEffects(cfg, kernels, rows, image, canvas);
      && r.failure == Some(rows[j].name)
      && |Draws(s0, r.trace)| == |Checked(rows[..j])|
      && forall d :: d in Draws(s0, r.trace) ==> d.target != Canvas
  {
    var pro := Prologue(cfg, image);
    var loop := Passes(cfg, kernels, rows, 0, image);
    PrologueEffect(cfg, image, s0);
    PassesStopAtUnknown(cfg, kernels, rows, 0, image, Exec(s0, pro), j);
    ReplayAppend(s0, pro, loop.cmds);
  }
}
