/**
 * The two video adapters: a tick that, while the video plays, draws the
 * current frame onto the auxiliary canvas scaled to fill one axis, turns
 * that canvas into the image `render` reads, renders it, and schedules the
 * next tick.  The adapters differ only in where `crossOrigin` is set and in
 * the scheduling primitive.  Browser calls are recorded as `Effect`s.
 */
module Video {
  import opened Common

  /** The attributes of the `<video>` element a tick reads. */
  datatype VideoElement = VideoElement(
    width: nat, height: nat, videoWidth: nat, videoHeight: nat, paused: bool, ended: bool)

  predicate Playing(v: VideoElement)
  {
    !v.paused && !v.ended
  }

  /** A destination rectangle of `drawImage`. */
  datatype Rect = Rect(x: real, y: real, w: real, h: real)

  /** Fixed in both adapters, so the vertical fill is the one used. */
  const IsHorizontalVideo: bool := false

  /**
   * `adjustImage`: fill the auxiliary canvas along one axis, scaling the
   * other to keep the video's aspect ratio.  When the video dimension it
   * divides by is 0 the ratio is infinite or NaN and `drawImage` draws
   * nothing, which is `None`.
   */
  function AdjustImage(horizontal: bool, auxW: nat, auxH: nat, v: VideoElement): (r: Option<Rect>)
    ensures r.None? <==> (if horizontal then v.videoWidth == 0 else v.videoHeight == 0)
    ensures r.Some? ==> r.value.x == 0.0 && r.value.y == 0.0
    ensures r.Some? && horizontal ==> r.value.w == auxW as real
    ensures r.Some? && !horizontal ==> r.value.h == auxH as real
    ensures r.Some? ==> r.value.w * (v.videoHeight as real) == r.value.h * (v.videoWidth as real)
  {
    var vw := v.videoWidth as real;
    var vh := v.videoHeight as real;
    if horizontal then
      if v.videoWidth == 0 then None
      else
        var hRatio := (auxW as real / vw) * vh;
        assert hRatio * vw == auxW as real * vh by {
          assert (auxW as real / vw) * vw == auxW as real;
        }
        Some(Rect(0.0, 0.0, auxW as real, hRatio))
    else
      if v.videoHeight == 0 then None
      else
        var vRatio := (auxH as real / vh) * vw;
        assert vRatio * vh == auxH as real * vw by {
          assert (auxH as real / vh) * vh == auxH as real;
        }
        Some(Rect(0.0, 0.0, vRatio, auxH as real))
  }

  /**
   * The vertical fill is the only rectangle at the origin that spans the
   * canvas height and keeps the video's aspect ratio.
   */
  lemma VerticalFillIsUnique(auxW: nat, auxH: nat, v: VideoElement, r: Rect)
    requires v.videoHeight > 0
    ensures AdjustImage(false, auxW, auxH, v) == Some(r) <==>
      r.x == 0.0 && r.y == 0.0 && r.h == auxH as real
      && r.w * (v.videoHeight as real) == r.h * (v.videoWidth as real)
  {
    var vh := v.videoHeight as real;
    if r.x == 0.0 && r.y == 0.0 && r.h == auxH as real && r.w * vh == r.h * (v.videoWidth as real) {
      var a := AdjustImage(false, auxW, auxH, v).value;
      assert a.w * vh == r.w * vh;
      assert a.w == r.w by {
        assert (a.w - r.w) * vh == 0.0;
      }
    }
  }

  /**
   * The horizontal fill is the only rectangle at the origin that spans the
   * canvas width and keeps the video's aspect ratio.
   */
  lemma HorizontalFillIsUnique(auxW: nat, auxH: nat, v: VideoElement, r: Rect)
    requires v.videoWidth > 0
    ensures AdjustImage(true, auxW, auxH, v) == Some(r) <==>
      r.x == 0.0 && r.y == 0.0 && r.w == auxW as real
      && r.w * (v.videoHeight as real) == r.h * (v.videoWidth as real)
  {
    var vw := v.videoWidth as real;
    if r.x == 0.0 && r.y == 0.0 && r.w == auxW as real && r.w * (v.videoHeight as real) == r.h * vw {
      var a := AdjustImage(true, auxW, auxH, v).value;
      assert a.h * vw == r.h * vw;
      assert a.h == r.h by {
        assert (a.h - r.h) * vw == 0.0;
      }
    }
  }

  /** Which copy: `processVideo.js` (animation frames) or `videoFrames.js` (5 ms timeouts). */
  datatype Adapter = ProcessVideo | VideoFrames

  /** A browser call made by an adapter. */
  datatype Effect =
    | DrawVideo(rect: Rect)   // auxCtx.drawImage(video, ...)
    | SetCrossOrigin          // image.crossOrigin = "anonymous"
    | SetSrc                  // image.src = auxCanvas.toDataURL()
    | Render                  // render(image)
    | AnimationFrame          // requestAnimationFrame(timerCallback)
    | Timeout(ms: nat)        // setTimeout(timerCallback, ms)

  predicate Schedules(e: Effect)
  {
    e.AnimationFrame? || e.Timeout?
  }

  /** What each adapter does once, when the script loads. */
  function Load(a: Adapter): seq<Effect>
  {
    match a
    case ProcessVideo => []
    case VideoFrames => [SetCrossOrigin]
  }

  /** `drawImage` / `computeFrame`: capture one frame and render it. */
  function Capture(a: Adapter, auxW: nat, auxH: nat, v: VideoElement): (c: seq<Effect>)
    ensures |c| > 0 && c[|c| - 1] == Render
    ensures SetSrc in c
    ensures SetCrossOrigin in c <==> a == ProcessVideo
    ensures forall e :: e in c ==> !Schedules(e)
  {
    var draw := match AdjustImage(IsHorizontalVideo, auxW, auxH, v)
      case None => []
      case Some(r) => [DrawVideo(r)];
    match a
    case ProcessVideo => draw + [SetCrossOrigin, SetSrc, Render]
    case VideoFrames => draw + [SetSrc, Render]
  }

  function Reschedule(a: Adapter): Effect
  {
    match a
    case ProcessVideo => AnimationFrame
    case VideoFrames => Timeout(5)
  }

  /**
   * Every capture fills the auxiliary canvas's height, keeping the video's
   * aspect ratio; a video without a known height is not drawn at all.
   */
  lemma CaptureFillsHeight(a: Adapter, auxW: nat, auxH: nat, v: VideoElement)
    ensures var c := Capture(a, auxW, auxH, v);
      && (v.videoHeight > 0 ==>
            && c[0].DrawVideo? && c[0].rect.x == 0.0 && c[0].rect.y == 0.0 && c[0].rect.h == auxH as real
            && c[0].rect.w * (v.videoHeight as real) == (auxH as real) * (v.videoWidth as real))
      && (v.videoHeight == 0 ==> forall e :: e in c ==> !e.DrawVideo?)
  {
  }

  /** `timerCallback`. */
  function Tick(a: Adapter, auxW: nat, auxH: nat, v: VideoElement): (t: seq<Effect>)
    ensures t == [] <==> !Playing(v)
    ensures t != [] ==> Render in t && Schedules(t[|t| - 1])
  {
    if !Playing(v) then [] else Capture(a, auxW, auxH, v) + [Reschedule(a)]
  }

  function Renders(es: seq<Effect>): nat
  {
    if es == [] then 0 else (if es[0].Render? then 1 else 0) + Renders(es[1..])
  }

  function Schedulings(es: seq<Effect>): nat
  {
    if es == [] then 0 else (if Schedules(es[0]) then 1 else 0) + Schedulings(es[1..])
  }

  function CrossOrigins(es: seq<Effect>): nat
  {
    if es == [] then 0 else (if es[0].SetCrossOrigin? then 1 else 0) + CrossOrigins(es[1..])
  }

  lemma {:induction false} CountsAppend(a: seq<Effect>, b: seq<Effect>)
    ensures Renders(a + b) == Renders(a) + Renders(b)
    ensures Schedulings(a + b) == Schedulings(a) + Schedulings(b)
    ensures CrossOrigins(a + b) == CrossOrigins(a) + CrossOrigins(b)
    decreases |a|
  {
    if a == [] {
      assert a + b == b;
    } else {
      assert (a + b)[1..] == a[1..] + b;
      CountsAppend(a[1..], b);
    }
  }

  /**
   * A tick renders exactly once and schedules exactly one further tick,
   * as its last call, when the video plays, and makes no call at all
   * otherwise.  The animation-frame copy sets `crossOrigin` once, before
   * `src`, on every capture; the timeout copy waits 5 ms and never sets
   * `crossOrigin` in a tick.
   */
  lemma TickShape(a: Adapter, auxW: nat, auxH: nat, v: VideoElement)
    ensures var t := Tick(a, auxW, auxH, v);
      && Renders(t) == (if Playing(v) then 1 else 0)
      && Schedulings(t) == (if Playing(v) then 1 else 0)
      && CrossOrigins(t) == (if Playing(v) && a == ProcessVideo then 1 else 0)
      && (!Playing(v) ==> t == [])
      && (Playing(v) ==> t[|t| - 1] == Reschedule(a))
      && (Playing(v) && a == ProcessVideo ==>
            exists i, j :: 0 <= i < j < |t| && t[i] == SetCrossOrigin && t[j] == SetSrc)
      && (a == VideoFrames ==> SetCrossOrigin !in t && (Playing(v) ==> t[|t| - 1] == Timeout(5)))
  {
    if Playing(v) {
      PlayingTick(a, auxW, auxH, v);
    }
  }

  lemma PlayingTick(a: Adapter, auxW: nat, auxH: nat, v: VideoElement)
    requires Playing(v)
    ensures var t := Tick(a, auxW, auxH, v);
      && Renders(t) == 1 && Schedulings(t) == 1
      && CrossOrigins(t) == (if a == ProcessVideo then 1 else 0)
      && t[|t| - 1] == Reschedule(a)
      && (a == ProcessVideo ==> t[|t| - 4] == SetCrossOrigin && t[|t| - 3] == SetSrc)
  {
    var t := Tick(a, auxW, auxH, v);
    var draw := match AdjustImage(IsHorizontalVideo, auxW, auxH, v)
      case None => []
      case Some(r) => [DrawVideo(r)];
    var rest := TickTail(a);
    assert t == draw + rest;
    CountsAppend(draw, rest);
    assert Renders(draw) == 0 && Schedulings(draw) == 0 && CrossOrigins(draw) == 0 by {
      if draw != [] {
        assert draw[1..] == [];
      }
    }
    TickTailCounts(a);
  }

  /** The calls of a playing tick after the frame is drawn onto the auxiliary canvas. */
  function TickTail(a: Adapter): seq<Effect>
  {
    match a
    case ProcessVideo => [SetCrossOrigin, SetSrc, Render, AnimationFrame]
    case VideoFrames => [SetSrc, Render, Timeout(5)]
  }

  lemma TickTailCounts(a: Adapter)
    ensures var rest := TickTail(a);
      && Renders(rest) == 1 && Schedulings(rest) == 1
      && CrossOrigins(rest) == (if a == ProcessVideo then 1 else 0)
  {
    var rest := TickTail(a);
    if a == ProcessVideo {
      assert rest[1..] == [SetSrc, Render, AnimationFrame];
      assert rest[1..][1..] == [Render, AnimationFrame];
      assert rest[1..][1..][1..] == [AnimationFrame];
      assert rest[1..][1..][1..][1..] == [];
      assert Renders(rest[1..][1..][1..]) == 0 && Schedulings(rest[1..][1..][1..]) == 1
        && CrossOrigins(rest[1..][1..][1..]) == 0;
      assert Renders(rest[1..][1..]) == 1 && Schedulings(rest[1..][1..]) == 1
        && CrossOrigins(rest[1..][1..]) == 0;
      assert Renders(rest[1..]) == 1 && Schedulings(rest[1..]) == 1
        && CrossOrigins(rest[1..]) == 0;
    } else {
      assert rest[1..] == [Render, Timeout(5)];
      assert rest[1..][1..] == [Timeout(5)];
      assert rest[1..][1..][1..] == [];
      assert Renders(rest[1..][1..]) == 0 && Schedulings(rest[1..][1..]) == 1
        && CrossOrigins(rest[1..][1..]) == 0;
      assert Renders(rest[1..]) == 1 && Schedulings(rest[1..]) == 1
        && CrossOrigins(rest[1..]) == 0;
    }
  }

  /**
   * What the script keeps between events: the size latched by the `play`
   * handler, the number of ticks scheduled and not yet run, and every
   * browser call made so far.
   */
  datatype Session = Session(width: int, height: int, pending: nat, log: seq<Effect>)

  /** `play` fires with the video as it is then; `Fire` runs one scheduled tick. */
  datatype Event = Play(v: VideoElement) | Fire(v: VideoElement)

  /** One event; a `Fire` with nothing scheduled cannot happen and changes nothing. */
  function Step(a: Adapter, auxW: nat, auxH: nat, s: Session, e: Event): (r: Session)
    ensures |s.log| <= |r.log| && r.log[..|s.log|] == s.log
    ensures e.Play? ==> r.width == e.v.width && r.height == e.v.height
    ensures e.Fire? ==> r.width == s.width && r.height == s.height
    ensures e.Fire? && s.pending == 0 ==> r == s
    ensures r.pending <= s.pending + (if e.Play? then 1 else 0)
  {
    match e
    case Play(v) =>
      Session(v.width, v.height, s.pending + (if Playing(v) then 1 else 0), s.log + Tick(a, auxW, auxH, v))
    case Fire(v) =>
      if s.pending == 0 then s
      else s.(pending := s.pending - 1 + (if Playing(v) then 1 else 0), log := s.log + Tick(a, auxW, auxH, v))
  }

  /**
   * The session when the script has loaded: nothing scheduled, the
   * load-time calls made, and no size latched yet (`width` and `height`
   * are undefined until the first `play`; the model starts them at 0).
   */
  function Start(a: Adapter): Session
  {
    Session(0, 0, 0, Load(a))
  }

  function Run(a: Adapter, auxW: nat, auxH: nat, s: Session, es: seq<Event>): Session
    decreases |es|
  {
    if es == [] then s else Run(a, auxW, auxH, Step(a, auxW, auxH, s, es[0]), es[1..])
  }

  function Plays(es: seq<Event>): nat
  {
    if es == [] then 0 else (if es[0].Play? then 1 else 0) + Plays(es[1..])
  }

  /** The size the last `play` in `es` saw, or `(w, h)` if there is none. */
  function LatchedSize(es: seq<Event>, w: int, h: int): (int, int)
    decreases |es|
  {
    if es == [] then (w, h)
    else if es[|es| - 1].Play? then (es[|es| - 1].v.width, es[|es| - 1].v.height)
    else LatchedSize(es[..|es| - 1], w, h)
  }

  /**
   * The `play` handler is the only writer of `width`/`height`: after any
   * events they hold the element size the most recent `play` saw.
   */
  lemma {:induction false} SizeIsLatchedAtPlay(a: Adapter, auxW: nat, auxH: nat, s: Session, es: seq<Event>)
    ensures var r := Run(a, auxW, auxH, s, es);
      (r.width, r.height) == LatchedSize(es, s.width, s.height)
    decreases |es|
  {
    if es != [] {
      var s1 := Step(a, auxW, auxH, s, es[0]);
      SizeIsLatchedAtPlay(a, auxW, auxH, s1, es[1..]);
      LatchedSizeFront(es, s.width, s.height, s1.width, s1.height);
    }
  }

  lemma {:induction false} LatchedSizeFront(es: seq<Event>, w: int, h: int, w1: int, h1: int)
    requires es != []
    requires es[0].Play? ==> (w1, h1) == (es[0].v.width, es[0].v.height)
    requires !es[0].Play? ==> (w1, h1) == (w, h)
    ensures LatchedSize(es[1..], w1, h1) == LatchedSize(es, w, h)
    decreases |es|
  {
    if |es| > 1 {
      assert es[1..][..|es[1..]| - 1] == es[..|es| - 1][1..];
      assert es[1..][|es[1..]| - 1] == es[|es| - 1];
      LatchedSizeFront(es[..|es| - 1], w, h, w1, h1);
    } else {
      assert es[1..] == [];
      assert es[..0] == [];
    }
  }

  /**
   * Ticks never multiply: running a tick consumes one scheduled tick and
   * schedules at most one, so the number of live tick chains never exceeds
   * the number scheduled at the start plus the number of `play` events.
   */
  lemma {:induction false} PendingBoundedByPlays(a: Adapter, auxW: nat, auxH: nat, s: Session, es: seq<Event>)
    ensures Run(a, auxW, auxH, s, es).pending <= s.pending + Plays(es)
    decreases |es|
  {
    if es != [] {
      PendingBoundedByPlays(a, auxW, auxH, Step(a, auxW, auxH, s, es[0]), es[1..]);
    }
  }

  /** The number of leading observations during which the video plays. */
  function PlayingPrefix(vs: seq<VideoElement>): (n: nat)
    ensures n <= |vs|
    ensures forall i :: 0 <= i < n ==> Playing(vs[i])
    ensures n < |vs| ==> !Playing(vs[n])
  {
    if vs == [] || !Playing(vs[0]) then 0 else 1 + PlayingPrefix(vs[1..])
  }

  function Fires(vs: seq<VideoElement>): (es: seq<Event>)
    ensures |es| == |vs|
    ensures forall i :: 0 <= i < |vs| ==> es[i] == Fire(vs[i])
  {
    seq(|vs|, i requires 0 <= i < |vs| => Fire(vs[i]))
  }

  /**
   * One tick chain observing the video at each of its ticks renders once
   * per observation up to the first one at which the video is paused or
   * ended, and then stops: nothing is rendered or scheduled afterwards.
   */
  lemma {:induction false} ChainRendersWhilePlaying(
    a: Adapter, auxW: nat, auxH: nat, s: Session, vs: seq<VideoElement>)
    requires s.pending == 1
    ensures var r := Run(a, auxW, auxH, s, Fires(vs));
      && Renders(r.log) == Renders(s.log) + PlayingPrefix(vs)
      && r.pending == (if PlayingPrefix(vs) == |vs| then 1 else 0)
    decreases |vs|
  {
    if vs != [] {
      var s1 := Step(a, auxW, auxH, s, Fire(vs[0]));
      TickShape(a, auxW, auxH, vs[0]);
      CountsAppend(s.log, Tick(a, auxW, auxH, vs[0]));
      assert Fires(vs)[0] == Fire(vs[0]);
      assert Fires(vs)[1..] == Fires(vs[1..]);
      if Playing(vs[0]) {
        ChainRendersWhilePlaying(a, auxW, auxH, s1, vs[1..]);
      } else {
        NothingPendingNothingHappens(a, auxW, auxH, s1, vs[1..]);
      }
    }
  }

  /** With no tick scheduled, ticks cannot run, so the session is unchanged. */
  lemma {:induction false} NothingPendingNothingHappens(
    a: Adapter, auxW: nat, auxH: nat, s: Session, vs: seq<VideoElement>)
    requires s.pending == 0
    ensures Run(a, auxW, auxH, s, Fires(vs)) == s
    decreases |vs|
  {
    if vs != [] {
      assert Fires(vs)[0] == Fire(vs[0]);
      assert Fires(vs)[1..] == Fires(vs[1..]);
      NothingPendingNothingHappens(a, auxW, auxH, s, vs[1..]);
    }
  }

  /**
   * A `play` event while a tick is still scheduled (a pause and resume
   * within one scheduling interval) starts a second chain beside the
   * first: from then on every round of ticks renders twice.
   */
  lemma ResumeWhilePendingRunsTwoChains(a: Adapter, auxW: nat, auxH: nat, s: Session, v: VideoElement)
    requires s.pending == 1 && Playing(v)
    ensures var r := Run(a, auxW, auxH, s, [Play(v), Fire(v), Fire(v)]);
      r.pending == 2 && Renders(r.log) == Renders(s.log) + 3
  {
    var t := Tick(a, auxW, auxH, v);
    TickShape(a, auxW, auxH, v);
    var s1 := Step(a, auxW, auxH, s, Play(v));
    var s2 := Step(a, auxW, auxH, s1, Fire(v));
    var s3 := Step(a, auxW, auxH, s2, Fire(v));
    CountsAppend(s.log, t);
    CountsAppend(s1.log, t);
    CountsAppend(s2.log, t);
    assert [Play(v), Fire(v), Fire(v)][1..] == [Fire(v), Fire(v)];
    assert [Fire(v), Fire(v)][1..] == [Fire(v)];
    assert [Fire(v)][1..] == [];
    assert Run(a, auxW, auxH, s3, []) == s3;
    assert Run(a, auxW, auxH, s2, [Fire(v)]) == s3;
    assert Run(a, auxW, auxH, s1, [Fire(v), Fire(v)]) == s3;
    assert Run(a, auxW, auxH, s, [Play(v), Fire(v), Fire(v)]) == s3;
  }

  /**
   * Whatever events follow, the timeout copy sets `crossOrigin` only at
   * load, and the animation-frame copy sets it once per render.
   */
  lemma {:induction false} CrossOriginTracksRenders(
    a: Adapter, auxW: nat, auxH: nat, s: Session, es: seq<Event>)
    ensures var r := Run(a, auxW, auxH, s, es);
      && (a == VideoFrames ==> CrossOrigins(r.log) == CrossOrigins(s.log))
      && (a == ProcessVideo ==>
            CrossOrigins(r.log) - CrossOrigins(s.log) == Renders(r.log) - Renders(s.log))
    decreases |es|
  {
    if es != [] {
      var s1 := Step(a, auxW, auxH, s, es[0]);
      var v := es[0].v;
      TickShape(a, auxW, auxH, v);
      CountsAppend(s.log, Tick(a, auxW, auxH, v));
      CrossOriginTracksRenders(a, auxW, auxH, s1, es[1..]);
    }
  }

  /**
   * From the loaded page, the timeout copy has set `crossOrigin` exactly
   * once whatever happens, and the animation-frame copy exactly as often
   * as it has rendered.
   */
  lemma CrossOriginFromStart(a: Adapter, auxW: nat, auxH: nat, es: seq<Event>)
    ensures var r := Run(a, auxW, auxH, Start(a), es);
      && (a == VideoFrames ==> CrossOrigins(r.log) == 1)
      && (a == ProcessVideo ==> CrossOrigins(r.log) == Renders(r.log))
  {
    CrossOriginTracksRenders(a, auxW, auxH, Start(a), es);
    assert [SetCrossOrigin][1..] == [];
  }
}
