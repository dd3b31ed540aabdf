# WebGL convolution filters, modelled in Dafny

The program applies a chain of 3x3 convolution kernels to an image, or to
the frames of a playing video, on the GPU. Two near-identical copies of the
pipeline exist:

- `script/semestralka.js` has seven kernels including `previtHorizontal`.
  Its `setFramebuffer` also sets the viewport, and `drawEffects` starts
  with a clear.
- `script/WebGLFilters.js` has six kernels, never sets the viewport and
  never clears.

Two adapters feed video frames to `render`:

- `script/processVideo.js` re-arms with `requestAnimationFrame`.
- `script/videoFrames.js` re-arms with `setTimeout(…, 5)`.

The model follows that structure, one module per concern:

- `Common`: `Option`, `Sum` and `Size`.
- `Kernels`:
  - the kernel table and the `effects` list of each copy;
  - `computeKernelWeight`, with its `reduce` written out as `Reduce`.
  - One `Config` value records the three ways the copies differ:
    `Semestralka` and `WebGLFilters`.
- `Geometry`:
  - `setRectangle` and the texture coordinates;
  - the vertex shader's pixel-to-clip mapping and its inverse.
- `Convolution`: the fragment shader over an integer pixel grid.
  - Neighbours are read clamp-to-edge and nearest-pixel, as the texture
    parameters set them.
  - The output is the weighted 3x3 sum divided by the weight, with alpha
    forced to 1.
- `Executor`: `drawEffects`, `setFramebuffer` and `drawWithKernel`.
  - Every GL call appends a `Cmd` to a trace.
  - A small interpreter (`Step`, `Exec`, `Draws`, `Clears`) turns the
    trace into the draws it performs.
  - `ExpectedDraws` is an independent reference for what a chain must
    draw, and `DrawEffectsPerformsChain` proves the two agree.
  - An unchecked row draws nothing.
  - A checked row whose name is not a key of `kernels` makes `kernels[name]`
    undefined, and `gl.uniform1fv` throws. The run then stops with
    `failure == Some(name)`, after that row's `setFramebuffer` calls.
- `Chain`: what follows from the agreement.
  - The order of the passes and the ping-pong between the two pool slots.
  - No pass samples its own target.
  - The viewport each copy leaves in force.
  - Rows built from the menu never fail.
- `Pool`: the allocation in `render`.
  - A fresh original texture, then two textures at the image size, each
    wrapped by a fresh framebuffer.
  - GL object handles are numbers drawn from a counter.
- `Render`: `render` itself.
  - It puts the rectangle, the pool and the GL state left by the allocation
    together with `drawEffects`.
  - The clear of `semestralka.js` is issued with `framebuffers[1]` still
    bound, because the allocation loop leaves it bound. So on the `render`
    path that clear empties the second pool texture, not the canvas.
- `Composite`: pixel semantics of a whole chain. When every pass's
  viewport is its target's size, the canvas ends up showing the original
  filtered by the checked kernels in row order. The result is opaque,
  upright and in the top-left corner. The copy that sets the viewport
  always meets that condition.
  - The other copy meets it only when the viewport left by earlier drawing
    has the right size.
- `Video`: the tick state machine and `adjustImage`.
  - A `Session` counts the ticks scheduled and not yet run, records the
    size latched by the `play` handler, and logs every browser call.
  - A session starts from the page load. `videoFrames.js` sets
    `crossOrigin` once there; `processVideo.js` sets it on every capture.
  - A `play` event that arrives while a tick is still scheduled (a pause
    and resume within one scheduling interval) starts a second tick chain
    beside the first.

## Model

| member | source | states |
|---|---|---|
| Kernels.KernelTable | script/semestralka.js:33-69 | every kernel has nine coefficients; `normal` is the identity; `previtHorizontal` is present exactly in the copy that has it |
| Kernels.BuiltinKernelSums | script/semestralka.js:33-69 | `normal`, `unsharpen`, `sharpness` and `emboss` sum to 1; `edgeDetect`, `sobelHorizontal` and `previtHorizontal` sum to 0 |
| Kernels.BuiltinKernelWeights | script/semestralka.js:33-69 | every registered kernel of either copy has nine coefficients and weight 1 |
| Kernels.TableValue | script/WebGLFilters.js:31-62 | every table entry is one of the seven built-in coefficient lists |
| Kernels.KernelNames | script/WebGLFilters.js:31-62 | the registered names are `normal`, `unsharpen`, `sharpness`, `edgeDetect`, `sobelHorizontal` and `emboss`, plus `previtHorizontal` in the copy that has it |
| Kernels.KernelTableSize | script/WebGLFilters.js:31-62 | the table holds six kernels in the copy without Prewitt and seven in the other |
| Kernels.EffectsAreKernels | script/semestralka.js:71-78 | the `effects` list is exactly the keys of `kernels` other than `normal`, each listed once: every effect is a registered kernel, every registered kernel but `normal` is an effect, and no name repeats |
| Kernels.Reduce | script/semestralka.js:218-220 | folding `prev + curr` from a start value adds the sum of the rest |
| Kernels.SumOfNine | script/semestralka.js:218-220 | the fold over a nine-element kernel is the sum of its nine coefficients |
| Kernels.ComputeKernelWeight | script/semestralka.js:217-222 | the weight is the coefficient sum when that is positive and 1 otherwise, hence always positive |
| Geometry.SetRectangle | script/semestralka.js:309-322 | six vertices whose coordinates lie in {x, x+w} × {y, y+h} |
| Geometry.RectangleIsTwoTriangles | script/semestralka.js:309-322 | the six vertices are two triangles sharing a diagonal and cover all four corners |
| Geometry.TexCoordsNormalisePositions | script/semestralka.js:153-165 | for a rectangle at the origin, texture coordinate k (`TexCoords`) is vertex k's position divided by the rectangle's size |
| Geometry.ClipOf | script/semestralka.js:100-109 | a position inside the resolution lands in clip space [-1, 1] on x, and on y for either flip |
| Geometry.ClipRoundTrip | script/semestralka.js:100-109 | the clip-space mapping of the vertex shader is invertible for flipY = ±1 |
| Geometry.FlipMirrorsY | script/semestralka.js:109 | flipY = -1 mirrors the clip position vertically and leaves x alone |
| Geometry.CornerClips | script/WebGLFilters.js:92-100 | with the resolution equal to the rectangle's size, the four corners land on the corners of clip space |
| Geometry.FullRectangleCoversClipSpace | script/WebGLFilters.js:92-100 | the rectangle at the origin maps into [-1, 1]² and reaches all four corners of it |
| Geometry.ClippedRectangleValues | script/WebGLFilters.js:92-100 | the six clipped vertices, listed exactly |
| Convolution.Clamp | script/semestralka.js:209-210 | CLAMP_TO_EDGE: an in-range index is kept and one outside is moved to the nearest edge |
| Convolution.Texel | script/semestralka.js:207-212 | a sample inside the texture reads exactly that pixel (NEAREST); a sample past one edge reads the pixel on that edge in the same row or column (CLAMP_TO_EDGE) |
| Convolution.ColorSumIsShaderSum | script/WebGLFilters.js:120-129 | the sum over coefficient indices with offsets (k mod 3 - 1, k div 3 - 1) is the shader's nine `texture2D(...) * u_kernel[k]` terms, added in the order written |
| Convolution.Shade | script/WebGLFilters.js:119-133 | a fragment's alpha is always 1 |
| Convolution.Pass | script/WebGLFilters.js:119-133 | a pass produces a well-formed image of the input's size |
| Convolution.PassPixel | script/WebGLFilters.js:119-133 | each output pixel is the shader's nine-term sum (neighbours (-1,-1) … (1,1) times `u_kernel[0]` … `u_kernel[8]`) with its colour channels divided by the weight and alpha 1 |
| Convolution.NormalCoefficient | script/WebGLFilters.js:32-36 | the identity kernel is 1 at the centre and 0 elsewhere |
| Convolution.IdentitySum | script/WebGLFilters.js:120-130 | with the identity kernel, only the centre term of the sum is non-zero |
| Convolution.IdentityPassIsOpaqueCopy | script/WebGLFilters.js:268-271 | a pass with `normal` and weight 1 copies the colour channels exactly and sets alpha to 1 |
| Executor.BuiltinTableWellFormed | script/semestralka.js:33-69 | both built-in tables are well formed: nine coefficients each, with `normal` the identity |
| Executor.Prologue | script/semestralka.js:224-259 | the commands before the loop clear exactly in the copy that clears |
| Executor.DrawWithKernel | script/semestralka.js:296-306 | `drawWithKernel` succeeds exactly when the name is a key of `kernels` |
| Executor.Passes | script/semestralka.js:262-277 | the loop fails only on a checked name that is not registered, naming it; when it completes it has counted one pass per checked row |
| Executor.PassesFailure | script/semestralka.js:262-277 | the loop completes exactly when every checked name is registered |
| Executor.DrawEffects | script/semestralka.js:224-283 | `drawEffects` throws exactly when some checked name is not registered, and then names such a row |
| Executor.ReplayAppend | script/semestralka.js:224-283 | running two command lists one after the other is the same as running their concatenation |
| Executor.ReplayOne | script/semestralka.js:224-283 | one command's effect on the GL state, the draws and the clears |
| Executor.ReplaySnoc | script/semestralka.js:224-283 | appending one command adds exactly that command's effect |
| Executor.QuietTrace | script/semestralka.js:285-294 | a trace without draws or clears draws and clears nothing |
| Executor.SetupEffect | script/semestralka.js:229-259 | the set-up calls bind the original texture, set the texture size and set flipY = 1 |
| Executor.PrologueEffect | script/semestralka.js:225-259 | the prologue has that effect too, plus one clear of the bound framebuffer in the copy that clears |
| Executor.SetFramebufferEffect | script/semestralka.js:285-294 | `setFramebuffer` (`SetFramebuffer`) binds the target and sets the resolution, plus the viewport in the copy that sets it; nothing else changes, and nothing is drawn or cleared |
| Executor.KernelDrawEffect | script/semestralka.js:296-306 | `drawWithKernel` sets the kernel and weight uniforms and draws six vertices once |
| Executor.OnePassEffect | script/semestralka.js:264-276 | one checked row draws into `framebuffers[count % 2]` from the current texture and leaves `textures[count % 2]` bound |
| Executor.ShiftPasses | script/semestralka.js:262-277 | the reference passes of a list are its first pass followed by the passes of the rest |
| Executor.PassesPerformCheckedRows | script/semestralka.js:262-277 | the menu loop draws exactly one pass per checked row, in row order, and never clears |
| Executor.PrologueAndPasses | script/semestralka.js:224-277 | everything before the canvas pass draws the offscreen passes and at most one clear |
| Executor.CompletedRun | script/semestralka.js:279-282 | a loop that did not throw is followed by the flip, `setFramebuffer(null, …)` and the `normal` draw |
| Executor.ClosingPassEffect | script/semestralka.js:279-282 | the closing pass draws once onto the canvas with `normal`, weight 1, flipY = -1 and the canvas resolution |
| Executor.DrawEffectsPerformsChain | script/semestralka.js:224-283 | when every checked name is registered, `drawEffects` performs exactly the reference draws; it clears the framebuffer bound on entry in the copy that clears, and nothing otherwise |
| Executor.PassesStopAtUnknown | script/semestralka.js:262-277 | the loop stops at the first checked unknown name, having drawn one pass per earlier checked row |
| Executor.StopAfterPass | script/semestralka.js:264-276 | a registered checked row before the failing one adds exactly one framebuffer draw in front of the rest of the loop's |
| Executor.PassDrawsOnce | script/semestralka.js:264-276 | from any GL state, one pass draws once, into `framebuffers[count % 2]` |
| Executor.DrawEffectsAbortsOnUnknownKernel | script/semestralka.js:296-299 | an unknown checked name makes `drawEffects` throw after the earlier passes, and the canvas is never drawn |
| Chain.ExpectedElements | script/WebGLFilters.js:251-271 | the reference draws: one offscreen draw per name, then the canvas draw |
| Chain.ExpectedShape | script/WebGLFilters.js:245-271 | the reference chain: pass i draws into slot i mod 2 with name i's kernel; pass 0 reads the original; each later pass reads what the previous one wrote; no feedback; the last pass goes to the canvas |
| Chain.ExpectedLinks | script/WebGLFilters.js:251-271 | each reference draw samples the texture the previous one wrote |
| Chain.ExpectedNoFeedback | script/WebGLFilters.js:251-271 | no reference draw samples the texture it writes; every weight is positive; every draw samples at the image size |
| Chain.ChainShape | script/semestralka.js:256-282 | the same facts for the draws `drawEffects` performs |
| Chain.NothingCheckedCopiesOriginal | script/semestralka.js:256-282 | with no row checked, the only draw copies the original onto the canvas |
| Chain.ExpectedViewports | script/semestralka.js:285-294 | every reference draw's viewport is its resolution in one copy and the entry viewport in the other |
| Chain.ViewportFollowsResolution | script/semestralka.js:285-294 | in `semestralka.js`, every draw's viewport equals its resolution uniform |
| Chain.ViewportNeverSet | script/WebGLFilters.js:274-280 | in `WebGLFilters.js`, every draw runs under the viewport in force on entry |
| Chain.StaleViewportWitness | script/WebGLFilters.js:274-280 | with any well-formed table that has `sharpness` (the copy's own table does), a 640x480 image in a 300x150 context gets an offscreen pass whose viewport differs from its resolution |
| Chain.ClearActsOnBoundFramebuffer | script/semestralka.js:225-227 | the clear acts on whichever framebuffer is bound on entry |
| Chain.MenuRows | script/semestralka.js:376-390 | row i of the menu carries effect i's name as its value and checkbox i's state, one row per effect |
| Chain.CheckedAreRowNames | script/semestralka.js:262-266 | every checked name is the name of some row |
| Chain.MenuRowsKnown | script/semestralka.js:376-390 | every checked box in the menu names a registered kernel |
| Chain.KnownRowsComplete | script/semestralka.js:262-282 | rows with registered names never throw, and the last draw is onto the canvas |
| Chain.MenuNeverFails | script/semestralka.js:376-390 | whatever boxes are ticked, `drawEffects` on the menu never throws and ends on the canvas |
| Pool.AllocationBindsState | script/semestralka.js:168-191 | after allocation, `textures[1]` and `framebuffers[1]` are bound |
| Pool.AllocationBindsEffect | script/semestralka.js:168-191 | the allocation's binds (`AllocationBinds`) change only the bound texture and framebuffer, and draw and clear nothing |
| Pool.AllocatePool | script/semestralka.js:168-191 | two textures at the image size plus an original texture at that size; framebuffer i wraps texture i; all five handles are fresh and distinct |
| Render.DrawAvoidsAttachment | script/semestralka.js:182-190 | a draw that is no feedback loop samples a GL texture other than the one attached to its target |
| Render.NoDrawSamplesItsAttachment | script/semestralka.js:256-276 | no reference draw samples the GL texture object attached to its own target, and every draw uses six vertices |
| Render.ChainOnPool | script/semestralka.js:148-201 | the chain run on a fresh pool performs the reference draws, and none of them samples its own target's texture |
| Render.Render | script/semestralka.js:148-201 | one `render`: texcoords normalise the rectangle; the pool is fresh and well shaped; `drawEffects` starts with `framebuffers[1]` bound and the chain performs the reference draws; on this path the clear hits `framebuffers[1]` |
| Render.SuccessivePoolsDisjoint | script/semestralka.js:166-191 | two successive renders share no GL object |
| Composite.Filtered | script/semestralka.js:262-277 | applying a list of kernels in turn gives a well-formed image of the original's size |
| Composite.Paint | script/semestralka.js:279-282 | drawing onto the canvas keeps the canvas size |
| Composite.PaintPixel | script/semestralka.js:279-282 | inside the drawn image's extent the canvas shows the image; outside it the canvas keeps its pixels |
| Composite.PaintCoversSameSize | script/semestralka.js:279-282 | an image of the canvas size replaces the canvas entirely |
| Composite.Apply | script/semestralka.js:264-282 | a draw given pixel semantics is no feedback loop and has its viewport equal to its resolution; it leaves the original alone; a canvas draw leaves the pool alone; a framebuffer draw leaves the canvas and the other slot alone |
| Composite.OffscreenStep | script/semestralka.js:264-276 | one offscreen pass stores its filtered image where the next pass reads |
| Composite.OffscreenPrefix | script/semestralka.js:262-277 | after i passes the next pass reads the original filtered by the first i kernels, and the original and the canvas are untouched |
| Composite.PrefixStep | script/semestralka.js:264-276 | extending the passes done by the next one keeps the invariant of `OffscreenPrefix` |
| Composite.ClosingStep | script/semestralka.js:279-282 | the closing pass paints the opaque copy of the texture it reads over the canvas when its viewport is the canvas size |
| Composite.ChainFiltersOriginal | script/semestralka.js:224-283 | when every pass's viewport is its target's size, the canvas shows the original filtered by the checked kernels in row order, made opaque, painted upright over its top-left corner (`Paint`) |
| Composite.NothingCheckedShowsOriginal | script/WebGLFilters.js:266-271 | with nothing checked and the closing viewport equal to the canvas size (always in one copy, when the viewport in force is the canvas size in the other), the canvas shows the original, made opaque |
| Video.AdjustImage | script/processVideo.js:48-58 | nothing is drawn when the dividing video dimension is 0; otherwise the rectangle is at the origin, spans the chosen axis of the canvas and keeps the video's aspect ratio |
| Video.VerticalFillIsUnique | script/processVideo.js:54-56 | the vertical fill is the only rectangle at the origin spanning the canvas height with the video's aspect ratio (both directions) |
| Video.HorizontalFillIsUnique | script/processVideo.js:49-52 | the horizontal fill is the only rectangle at the origin spanning the canvas width with the video's aspect ratio (both directions) |
| Video.CaptureFillsHeight | script/videoFrames.js:38-54 | with `isHorizontalVideo` false, every capture fills the canvas height with the aspect ratio kept; a video of height 0 is not drawn |
| Video.Capture | script/processVideo.js:37-43 | a capture ends with `render`, sets `src`, sets `crossOrigin` exactly in `processVideo.js`, and schedules nothing |
| Video.Tick | script/processVideo.js:16-23 | a tick makes no call exactly when the video is paused or ended; otherwise it renders and its last call schedules the next tick |
| Video.CountsAppend | script/processVideo.js:16-23 | render, scheduling and `crossOrigin` counts add up over concatenated logs |
| Video.TickShape | script/processVideo.js:16-23 | a tick renders once and schedules one further tick (as its last call) while the video plays, and makes no call at all otherwise; `processVideo.js` sets `crossOrigin` once per tick, before `src`; `videoFrames.js` waits 5 ms and never sets `crossOrigin` in a tick |
| Video.PlayingTick | script/videoFrames.js:16-24 | a tick of a playing video renders once, schedules once as its last call, and in `processVideo.js` sets `crossOrigin` then `src` just before rendering |
| Video.LatchedSizeFront | script/processVideo.js:31-35 | the most recent `play` size can be computed from the front of the event list |
| Video.Step | script/processVideo.js:16-35 | an event only appends to the log; `play` latches the element size and `Fire` keeps it; a tick with nothing scheduled changes nothing; each event adds at most one scheduled tick, and only `play` can grow the count |
| Video.SizeIsLatchedAtPlay | script/videoFrames.js:31-35 | after any events, `width` and `height` hold the element size the most recent `play` saw |
| Video.PendingBoundedByPlays | script/videoFrames.js:16-24 | ticks never multiply: scheduled ticks grow only with `play` events |
| Video.PlayingPrefix | script/processVideo.js:17-19 | the leading run of observations in which the video plays |
| Video.ChainRendersWhilePlaying | script/processVideo.js:16-23 | a tick chain renders once per observation up to the first pause or end, then stops for good |
| Video.NothingPendingNothingHappens | script/videoFrames.js:16-19 | with no tick scheduled, nothing happens |
| Video.ResumeWhilePendingRunsTwoChains | script/processVideo.js:31-35 | a `play` while a tick is still scheduled leaves two chains, and each round then renders twice |
| Video.CrossOriginTracksRenders | script/videoFrames.js:16-24 | whatever events follow, `videoFrames.js` never sets `crossOrigin` again, and `processVideo.js` sets it once per render |
| Video.CrossOriginFromStart | script/videoFrames.js:1-2 | from the loaded page, `videoFrames.js` has set `crossOrigin` exactly once (at load), and `processVideo.js` as often as it has rendered |

## Left out

- DOM menu construction (`drawMenu`) is modelled only by its output: the rows and their checked flags, in order.
- WebGL context acquisition and the `alert` fallback are browser I/O.
- Shader compile and link are left out: `loadShader` and `initShaderProgram` never check status, so there is no failure behaviour.
- Buffer, attribute and uniform-location calls are left out, because they carry no logic. The uniform writes that matter are commands in the trace.
- `enableVertexAttribArray` and `vertexAttribPointer` are not in the trace. They re-establish the same attribute state on every call, so the draws see no difference.
- Pixel transfer is left out: `texImage2D`, `toDataURL`, assigning `Image.src` and the 2D canvas `drawImage`. The model keeps only which calls happen, in order.
- Asynchronous image loading is left out. `render(image)` runs before the new `src` has loaded, so which frame `render` sees is browser timing.
- Scheduling cadence is left out. Only the per-tick decision to reschedule or not is modelled, and the timeout's 5 ms is recorded as data.
- GPU numerics are left out: `mediump` precision, normalised 0–1 sampling, and RGBA8 clamping and quantisation. The model works over `real`.
- Composite.Apply: rasterisation is given no pixel semantics when the viewport, resolution and target size differ. That covers a stale viewport and an image larger or smaller than the canvas on offscreen passes. `Apply` returns `None` there.
- Composite.ChainFiltersOriginal: stated only when every pass's viewport is its target's size. The copy that sets the viewport always meets this. The other copy meets it only when the viewport in force on entry equals the canvas size and, if any kernel is checked, also the image size.
- Kernels.ComputeKernelWeight: requires a non-empty kernel, because `reduce` without an initial value throws on an empty array.
- Video.AdjustImage: the sizes are non-negative whole numbers and the arithmetic is exact. JavaScript's Infinity and NaN are represented by `None` ("draws nothing").
- The cross-file global `image` read by `drawEffects` is an explicit parameter (`image: Size`).
- The zero-size first frame is left out. On the first tick, `render(image)` runs on an `Image` that has not loaded, so `image.width` and `image.height` are 0 and `u_resolution` is (0, 0). The vertex shader then divides by zero, which GLSL leaves undefined. `Geometry.ClipOf` requires a non-zero resolution, and `Composite` gives pixel semantics only to images of positive size.
- Video.Start: `width` and `height` are undefined until the first `play`. The model starts them at 0, and `LatchedSize` returns those initial values while no `play` has happened.
- The claim that the order of non-commuting kernels matters is not modelled. Away from the edges, linear convolutions commute over exact arithmetic, so an order effect would rest on clamping at the edges and quantisation.

## Findings

| source | as written | input that shows it | evidently intended | confidence | as-written member | corrected member |
|---|---|---|---|---|---|---|
| script/WebGLFilters.js:274-280 | `setFramebuffer` binds the framebuffer and sets `u_resolution` but never calls `gl.viewport`, so offscreen passes render under the context's initial viewport | a 640x480 image in a context whose drawing buffer (hence initial viewport) is 300x150, with `sharpness` checked: pass 0 has resolution 640x480 and viewport 300x150, so the rectangle is squeezed into part of the texture | set the viewport to the target's size, as `script/semestralka.js:293` does | medium, not executed | Chain.StaleViewportWitness | Chain.ViewportFollowsResolution |
