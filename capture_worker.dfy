/**
 * `CaptureWorker` of main.py: one thread per camera that keeps a capture handle
 * open, grabs frames, defers the decode until the emit-rate gate lets a frame
 * through, optionally shrinks it, and emits it. The OpenCV handle is an abstract
 * device: what `isOpened`, opening, `grab`, `retrieve` and the reported FPS
 * answer in one loop iteration is a `Device` value given as input, and what the
 * worker does to the outside world (signals, sleeps, device calls) is returned as
 * a trace of `Event`s.
 */
module Capture {
  import opened Wrappers
  import opened Frames
  import BoundedDeque

  const MaxReconnectBackoff: real := 10.0
  const ReconnectBackoffMultiplier: real := 1.5
  /** Backoff right after construction and after every successful open. */
  const InitialBackoff: real := 1.0
  /** FPS used when the configured or reported value is unusable. */
  const FallbackFps: real := 30.0
  const MaxUsableFps: real := 240.0
  /** Upper bound of one rate-gate sleep, in milliseconds. */
  const MaxGateSleepMs: int := 10
  /** `time.sleep(0.2)` in the loop's `except Exception` handler. */
  const ExceptionSleep: real := 0.2

  // ---------------------------------------------------------------- backoff

  /** Backoff after one more failed open: multiplied by 1.5, capped at 10 s. */
  function NextBackoff(b: real): (r: real)
    ensures r <= MaxReconnectBackoff
    ensures 0.0 <= b <= MaxReconnectBackoff ==> b <= r
    ensures b * ReconnectBackoffMultiplier <= MaxReconnectBackoff ==> r == b * ReconnectBackoffMultiplier
  {
    if b * ReconnectBackoffMultiplier < MaxReconnectBackoff then b * ReconnectBackoffMultiplier
    else MaxReconnectBackoff
  }

  /** Backoff after `k` consecutive failed opens starting from `b`. */
  function BackoffAfter(b: real, k: nat): real
  {
    if k == 0 then b else NextBackoff(BackoffAfter(b, k - 1))
  }

  /** 1.5 to the power `k`. */
  function Pow15(k: nat): (r: real)
    ensures r >= 1.0
  {
    if k == 0 then 1.0 else 1.5 * Pow15(k - 1)
  }

  /**
   * After `k` consecutive failures from a fresh start the backoff is exactly
   * `min(1.5^k, 10)`: exponential growth up to the cap, then flat.
   */
  lemma {:induction false} BackoffAfterFailures(k: nat)
    ensures BackoffAfter(InitialBackoff, k) == if Pow15(k) < MaxReconnectBackoff then Pow15(k) else MaxReconnectBackoff
  {
    if k > 0 {
      BackoffAfterFailures(k - 1);
    }
  }

  /** Across consecutive failures the backoff never decreases and stays in [1, 10]. */
  lemma {:induction false} BackoffMonotoneBounded(b: real, k: nat)
    requires InitialBackoff <= b <= MaxReconnectBackoff
    ensures b <= BackoffAfter(b, k) <= BackoffAfter(b, k + 1) <= MaxReconnectBackoff
  {
    if k > 0 {
      BackoffMonotoneBounded(b, k - 1);
    }
  }

  // ---------------------------------------------------------------- emit rate

  /** `_configure_fps_from_camera`: the FPS the emit interval is derived from when a handle opens. */
  function ConfiguredFps(target: Option<real>, reportedFps: real): (fps: real)
    ensures 1.0 < fps <= MaxUsableFps
  {
    var requested := if target.Some? && target.value > 0.0 then target.value else reportedFps;
    if requested <= 1.0 || requested > MaxUsableFps then FallbackFps else requested
  }

  /**
   * The rule of `_configure_fps_from_camera`, both directions: a positive target
   * wins over the camera's value, and the chosen value is kept exactly when it
   * lies in (1, 240], otherwise 30 is used.
   */
  lemma ConfiguredFpsRule(target: Option<real>, reportedFps: real)
    ensures var requested := if target.Some? && target.value > 0.0 then target.value else reportedFps;
            && (1.0 < requested <= MaxUsableFps ==> ConfiguredFps(target, reportedFps) == requested)
            && (!(1.0 < requested <= MaxUsableFps) ==> ConfiguredFps(target, reportedFps) == FallbackFps)
  {
  }

  /** Emit interval (seconds) for a requested FPS: `1 / max(1, fps)`. */
  function IntervalFor(fps: real): (r: real)
    requires fps > 0.0
    ensures 0.0 < r <= 1.0
    ensures fps >= 1.0 ==> r * fps == 1.0
    ensures fps < 1.0 ==> r == 1.0
  {
    if fps < 1.0 then 1.0 else 1.0 / fps
  }

  /** After an open the interval is between 1/240 s and 1 s, whatever the camera reports. */
  lemma OpenIntervalBounds(target: Option<real>, reportedFps: real)
    ensures var i := IntervalFor(ConfiguredFps(target, reportedFps));
            1.0 / MaxUsableFps <= i < 1.0
  {
    var fps := ConfiguredFps(target, reportedFps);
    var i := IntervalFor(fps);
    assert i * fps == 1.0;
    MulNonneg(i, MaxUsableFps - fps);
    assert i * MaxUsableFps == i * fps + i * (MaxUsableFps - fps);
  }

  // ---------------------------------------------------------------- rate gate

  /**
   * Milliseconds slept when the gate is closed: the remaining wait minus one
   * millisecond, truncated, but at least 1 and at most 10.
   */
  function GateSleepMs(interval: real, sinceEmit: real): (ms: int)
    requires sinceEmit < interval
    ensures 1 <= ms <= MaxGateSleepMs
    ensures ms > 1 ==> (ms as real) < (interval - sinceEmit) * 1000.0
  {
    var remaining := ((interval - sinceEmit) * 1000.0).Floor - 1;
    var atLeastOne := if remaining < 1 then 1 else remaining;
    if atLeastOne < MaxGateSleepMs then atLeastOne else MaxGateSleepMs
  }

  // ---------------------------------------------------------------- downsample

  /**
   * `_downsample_frame` output size (width, height) for a frame of `w` x `h` and a
   * positive maximum dimension, in exact arithmetic: unchanged when both sides fit,
   * otherwise both sides scaled by `maxDim / max(w, h)` and truncated.
   */
  function DownsampledSize(w: nat, h: nat, maxDim: nat): (r: (nat, nat))
    requires maxDim > 0
    ensures w <= maxDim && h <= maxDim ==> r == (w, h)
    ensures r.0 <= maxDim && r.1 <= maxDim
    ensures r.0 <= w && r.1 <= h
    ensures var longest := if w >= h then w else h;
            !(w <= maxDim && h <= maxDim) ==> (r.0 == 0 <==> w * maxDim < longest) && (r.1 == 0 <==> h * maxDim < longest)
  {
    if w <= maxDim && h <= maxDim then (w, h)
    else
      var longest := if w >= h then w else h;
      var scale := (maxDim as real) / (longest as real);
      ScaledSideBounds(w, longest, maxDim, scale);
      ScaledSideBounds(h, longest, maxDim, scale);
      ScaledSideZero(w, longest, maxDim, scale);
      ScaledSideZero(h, longest, maxDim, scale);
      ((w as real * scale).Floor as nat, (h as real * scale).Floor as nat)
  }

  /** One side scaled by `maxDim / longest` with `side <= longest` and `maxDim < longest` fits both bounds. */
  lemma ScaledSideBounds(side: nat, longest: nat, maxDim: nat, scale: real)
    requires 0 < maxDim < longest && side <= longest
    requires scale == (maxDim as real) / (longest as real)
    ensures 0 <= (side as real * scale).Floor <= maxDim
    ensures (side as real * scale).Floor <= side
  {
    assert scale * (longest as real) == maxDim as real;
    if scale >= 1.0 {
      MulNonneg(scale - 1.0, longest as real);
      assert false;
    }
    MulNonneg((longest - side) as real, scale);
    assert longest as real * scale - side as real * scale == (longest - side) as real * scale;
    assert side as real * scale <= longest as real * scale == maxDim as real;
    var x := side as real * scale;
    MulNonneg(side as real, 1.0 - scale);
    assert side as real - x == side as real * (1.0 - scale);
    assert x <= side as real;
    assert x.Floor as real <= x;
    assert x.Floor as real <= side as real;
    assert x <= maxDim as real;
    assert x.Floor as real <= maxDim as real;
  }

  lemma MulNonneg(a: real, b: real)
    requires 0.0 <= a && 0.0 <= b
    ensures 0.0 <= a * b
  {
  }

  lemma MulPos(a: real, b: real)
    requires 0.0 < a && 0.0 < b
    ensures 0.0 < a * b
  {
  }

  /**
   * A scaled side truncates to 0 exactly when `side * maxDim < longest`, that
   * is when the side is shorter than one pixel after scaling.
   */
  lemma ScaledSideZero(side: nat, longest: nat, maxDim: nat, scale: real)
    requires 0 < maxDim < longest && side <= longest
    requires scale == (maxDim as real) / (longest as real)
    ensures (side as real * scale).Floor == 0 <==> side * maxDim < longest
  {
    var x := side as real * scale;
    var len := longest as real;
    assert scale * len == maxDim as real;
    assert x * len == side as real * (scale * len);
    MulNonneg(side as real, scale);
    BelowOne(x, len, (side * maxDim) as real);
    if x < 1.0 {
      assert x.Floor == 0;
    } else {
      assert x.Floor >= 1;
    }
  }

  /** For a non-negative `x` with `x * len == p`, `x` is below 1 exactly when `p` is below `len`. */
  lemma BelowOne(x: real, len: real, p: real)
    requires 0.0 <= x && 0.0 < len && x * len == p
    ensures x < 1.0 <==> p < len
  {
    if x < 1.0 {
      MulPos(1.0 - x, len);
      assert (1.0 - x) * len == len - p;
    } else {
      MulNonneg(x - 1.0, len);
      assert (x - 1.0) * len == p - len;
    }
  }

  /**
   * `_downsample_frame` where `downsample_max_dim` is truthy: a frame that fits
   * is returned as it is; a larger one becomes the new array `cv2.resize`
   * returns (identity `resizedId`) with both sides scaled down. When a side
   * scales to 0 pixels `cv2.resize` raises instead, and the result is None.
   */
  function Downsample(f: Frame, maxDim: Option<nat>, resizedId: nat): (g: Option<Frame>)
    ensures maxDim.None? || maxDim.value == 0 ==> g == Some(f)
    ensures maxDim.Some? && maxDim.value > 0 && f.shape.width <= maxDim.value && f.shape.height <= maxDim.value ==> g == Some(f)
    ensures g.None? <==>
              && maxDim.Some? && maxDim.value > 0
              && !(f.shape.width <= maxDim.value && f.shape.height <= maxDim.value)
              && var longest := if f.shape.width >= f.shape.height then f.shape.width else f.shape.height;
                 (f.shape.width * maxDim.value < longest || f.shape.height * maxDim.value < longest)
    ensures g.Some? && g != Some(f) ==>
              && g.value.id == resizedId && g.value.dtype == f.dtype && g.value.shape.channels == f.shape.channels
              && 0 < g.value.shape.width <= maxDim.value && g.value.shape.width <= f.shape.width
              && 0 < g.value.shape.height <= maxDim.value && g.value.shape.height <= f.shape.height
  {
    if maxDim.None? || maxDim.value == 0 then Some(f)
    else if f.shape.width <= maxDim.value && f.shape.height <= maxDim.value then Some(f)
    else
      var (nw, nh) := DownsampledSize(f.shape.width, f.shape.height, maxDim.value);
      if nw == 0 || nh == 0 then None
      else Some(Frame(resizedId, Shape(nh, nw, f.shape.channels), f.dtype))
  }

  /** A 2000 x 1 frame shrunk to at most 640 pixels would be 640 x 0, so the resize fails. */
  lemma ThinFrameCollapses(f: Frame, resizedId: nat)
    requires f.shape.width == 2000 && f.shape.height == 1
    ensures DownsampledSize(2000, 1, 640) == (640, 0)
    ensures Downsample(f, Some(640), resizedId) == None
  {
    var scale := 640.0 / 2000.0;
    assert 2000.0 * scale == 640.0;
    assert 1.0 * scale == 0.32;
  }

  // ---------------------------------------------------------------- the worker

  /** What the abstract device answers during one loop iteration. */
  datatype Device = Device(
    isOpened: bool,          // `_cap.isOpened()` of the handle held at the start of the iteration
    opens: bool,             // whether a new `cv2.VideoCapture` opens
    reportedFps: real,       // `cap.get(CAP_PROP_FPS)` of a newly opened handle
    grabs: bool,             // `_cap.grab()`
    retrieved: Option<Frame>, // `_cap.retrieve()`: a frame, or `(False, _)` / `None`
    resizedId: nat           // identity of the new array `cv2.resize` would return
  )

  /** Observable effects of the worker, in order. */
  datatype Event =
    | OpenAttempt                 // `cv2.VideoCapture(stream_link, backend)`
    | RequestMjpg                 // `cap.set(CAP_PROP_FOURCC, MJPG)`
    | RequestWidth(w: int)        // `cap.set(CAP_PROP_FRAME_WIDTH, w)`
    | RequestHeight(h: int)       // `cap.set(CAP_PROP_FRAME_HEIGHT, h)`
    | RequestBufferSize(n: int)   // `cap.set(CAP_PROP_BUFFERSIZE, n)`
    | PushFps(fps: real)          // `cap.set(CAP_PROP_FPS, fps)`
    | StatusChanged(online: bool) // `status_changed.emit`
    | SleepSeconds(s: real)       // `time.sleep`
    | SleepMs(ms: int)            // `self.msleep`
    | Grab
    | Retrieve
    | FrameReady(frame: Frame)    // `frame_ready.emit`
    | ReleaseHandle               // `release()` of a handle

  /** What a worker is created with and never changes: ring capacity and requested capture size. */
  datatype Settings = Settings(maxlen: nat, captureWidth: Option<int>, captureHeight: Option<int>)

  /** The fields of a worker that its methods change. */
  datatype WorkerState = WorkerState(
    running: bool,
    backoff: real,               // `_reconnect_backoff`
    hasCap: bool,                // `self._cap is not None`
    lastEmit: real,
    targetFps: Option<real>,
    emitInterval: real,          // `_emit_interval` (and its cached copy, which always holds the same value)
    downsampleMaxDim: Option<nat>,
    buffer: seq<Frame>)

  /** Backoff within [1, 10] s, emit interval within (0, 1] s, ring within its capacity. */
  predicate Inv(c: Settings, s: WorkerState)
  {
    && InitialBackoff <= s.backoff <= MaxReconnectBackoff
    && 0.0 < s.emitInterval <= 1.0
    && |s.buffer| <= c.maxlen
  }

  /** The FPS `_open_capture` asks the camera for: the target when it is positive, else 0. */
  function RequestedFps(target: Option<real>): (fps: real)
    ensures fps >= 0.0
    ensures fps > 0.0 <==> target.Some? && target.value > 0.0
    ensures fps > 0.0 ==> fps == target.value
  {
    if target.Some? && target.value > 0.0 then target.value else 0.0
  }

  /** A requested side length is sent only when it is set and non-zero (Python truthiness). */
  function SideRequest(side: Option<int>, request: int -> Event): seq<Event>
  {
    if side.Some? && side.value != 0 then [request(side.value)] else []
  }

  /** The settings `_open_capture` requests on a handle that opened, in order. */
  function OpenRequests(c: Settings, target: Option<real>): seq<Event>
  {
    [RequestMjpg]
    + SideRequest(c.captureWidth, w => RequestWidth(w))
    + SideRequest(c.captureHeight, h => RequestHeight(h))
    + [RequestBufferSize(1), PushFps(RequestedFps(target))]
  }

  /**
   * What `_open_capture` asks of a handle that opened: MJPG first; the width
   * and then the height, each exactly when it is set and non-zero; then one
   * buffer; and last the requested rate.
   */
  lemma OpenRequestsSpec(c: Settings, target: Option<real>)
    ensures var r := OpenRequests(c, target);
            var w := c.captureWidth;
            var h := c.captureHeight;
            && 3 <= |r| <= 5
            && r[0] == RequestMjpg
            && r[|r| - 2] == RequestBufferSize(1) && r[|r| - 1] == PushFps(RequestedFps(target))
            && (w.Some? && w.value != 0 ==> r[1] == RequestWidth(w.value))
            && (h.Some? && h.value != 0 ==> r[|r| - 3] == RequestHeight(h.value))
            && (forall x :: RequestWidth(x) in r ==> w == Some(x) && x != 0)
            && (forall x :: RequestHeight(x) in r ==> h == Some(x) && x != 0)
  {
    var ws := SideRequest(c.captureWidth, w => RequestWidth(w));
    var hs := SideRequest(c.captureHeight, h => RequestHeight(h));
    var r := OpenRequests(c, target);
    assert r == [RequestMjpg] + ws + hs + [RequestBufferSize(1), PushFps(RequestedFps(target))];
    assert forall x :: x in r ==> x == RequestMjpg || x in ws || x in hs || x == RequestBufferSize(1) || x == PushFps(RequestedFps(target));
  }

  /**
   * `_ensure_capture_open`: whether the worker is ready, its new state and its
   * events. An open handle is kept as it is. Otherwise a new handle is opened:
   * on success it is configured, the interval follows the fps rule, the backoff
   * resets and online is reported; on failure the new handle is released, the
   * worker sleeps the current backoff and grows it, and keeps whatever (closed)
   * handle it held.
   */
  function EnsureOpen(c: Settings, s: WorkerState, dev: Device): (bool, WorkerState, seq<Event>)
  {
    if s.hasCap && dev.isOpened then (true, s, [])
    else if dev.opens then
      (true,
       s.(hasCap := true, emitInterval := IntervalFor(ConfiguredFps(s.targetFps, dev.reportedFps)), backoff := InitialBackoff),
       [OpenAttempt] + OpenRequests(c, s.targetFps) + [StatusChanged(true)])
    else
      (false, s.(backoff := NextBackoff(s.backoff)), [OpenAttempt, ReleaseHandle, SleepSeconds(s.backoff)])
  }

  /**
   * What `_ensure_capture_open` promises: ready exactly when the held handle is
   * open or a new one opens; an open resets the backoff, sets the interval by
   * the fps rule, asks for MJPG, one buffer and the requested rate, and reports
   * online; a failed open sleeps the backoff, grows it and reports nothing.
   */
  lemma EnsureOpenSpec(c: Settings, s: WorkerState, dev: Device)
    requires Inv(c, s)
    ensures var (ready, t, e) := EnsureOpen(c, s, dev);
            && Inv(c, t)
            && (ready <==> (s.hasCap && dev.isOpened) || dev.opens)
            && (ready ==> t.hasCap)
            && (s.hasCap && dev.isOpened ==> t == s && e == [])
            && (!(s.hasCap && dev.isOpened) ==> e[0] == OpenAttempt)
            && (!(s.hasCap && dev.isOpened) && dev.opens ==>
                  && t.backoff == InitialBackoff
                  && t.emitInterval == IntervalFor(ConfiguredFps(s.targetFps, dev.reportedFps))
                  && RequestMjpg in e && RequestBufferSize(1) in e && PushFps(RequestedFps(s.targetFps)) in e
                  && e[|e| - 1] == StatusChanged(true))
            && (!ready ==>
                  && t.backoff == NextBackoff(s.backoff) && s.backoff <= t.backoff
                  && t.hasCap == s.hasCap && t.emitInterval == s.emitInterval
                  && SleepSeconds(s.backoff) in e && StatusChanged(true) !in e)
            && t.running == s.running && t.lastEmit == s.lastEmit && t.buffer == s.buffer
            && t.targetFps == s.targetFps && t.downsampleMaxDim == s.downsampleMaxDim
  {
    if !(s.hasCap && dev.isOpened) && dev.opens {
      var e := EnsureOpen(c, s, dev).2;
      var req := OpenRequests(c, s.targetFps);
      assert e == [OpenAttempt] + req + [StatusChanged(true)];
      assert req[0] == RequestMjpg && req[|req| - 2] == RequestBufferSize(1) && req[|req| - 1] == PushFps(RequestedFps(s.targetFps));
      assert e[1] == req[0] && e[|req| - 1] == req[|req| - 2] && e[|req|] == req[|req| - 1];
    }
  }

  /** The events of `_handle_capture_failure` for a worker that holds a handle. */
  const Failure: seq<Event> := [ReleaseHandle, StatusChanged(false)]

  /**
   * The part of an iteration after the handle is ready: grab, check the rate
   * gate at monotonic time `now`, and only then retrieve, shrink, store and emit.
   * A resize that raises is caught by the loop, which sleeps 0.2 s and keeps
   * the handle; nothing is stored or emitted.
   */
  function ReadStep(c: Settings, t: WorkerState, dev: Device, now: real): (WorkerState, seq<Event>)
    requires Inv(c, t)
  {
    if !dev.grabs then (t.(hasCap := false), [Grab] + Failure)
    else if now - t.lastEmit < t.emitInterval then
      (t, [Grab, SleepMs(GateSleepMs(t.emitInterval, now - t.lastEmit))])
    else if dev.retrieved.None? then (t.(hasCap := false), [Grab, Retrieve] + Failure)
    else
      match Downsample(dev.retrieved.value, t.downsampleMaxDim, dev.resizedId)
      case None => (t, [Grab, Retrieve, SleepSeconds(ExceptionSleep)])
      case Some(f) =>
        (t.(buffer := BoundedDeque.Append(t.buffer, f, c.maxlen), lastEmit := now), [Grab, Retrieve, FrameReady(f)])
  }

  /** One iteration of the `while self._running` loop: open if needed, then `ReadStep`. */
  function Iteration(c: Settings, s: WorkerState, dev: Device, now: real): (WorkerState, seq<Event>)
    requires Inv(c, s)
  {
    EnsureOpenSpec(c, s, dev);
    var afterOpen := EnsureOpen(c, s, dev);
    if !afterOpen.0 then (afterOpen.1, afterOpen.2)
    else
      var read := ReadStep(c, afterOpen.1, dev, now);
      (read.0, afterOpen.2 + read.1)
  }

  /** An iteration keeps the invariant; only the open step touches the backoff and the interval. */
  lemma IterationInv(c: Settings, s: WorkerState, dev: Device, now: real)
    requires Inv(c, s)
    ensures var t := Iteration(c, s, dev, now).0;
            var kept := s.hasCap && dev.isOpened;
            var ready := kept || dev.opens;
            && Inv(c, t)
            && t.running == s.running && t.targetFps == s.targetFps && t.downsampleMaxDim == s.downsampleMaxDim
            && t.backoff == (if !ready then NextBackoff(s.backoff) else if kept then s.backoff else InitialBackoff)
            && t.emitInterval == (if ready && !kept then IntervalFor(ConfiguredFps(s.targetFps, dev.reportedFps)) else s.emitInterval)
  {
    EnsureOpenSpec(c, s, dev);
  }

  /**
   * One iteration, the handle: it survives exactly when it was ready and the
   * grab (and, past the gate, the retrieve) succeeded; a handle that is not
   * ready gives one failed-open round; a grab happens exactly on a ready handle.
   */
  lemma IterationSpec(c: Settings, s: WorkerState, dev: Device, now: real)
    requires Inv(c, s)
    ensures var t := Iteration(c, s, dev, now).0;
            var e := Iteration(c, s, dev, now).1;
            var ready := (s.hasCap && dev.isOpened) || dev.opens;
            var gateClosed := now - s.lastEmit < t.emitInterval;
            && (t.hasCap <==> if ready then dev.grabs && (gateClosed || dev.retrieved.Some?) else s.hasCap)
            && (!ready ==> e == [OpenAttempt, ReleaseHandle, SleepSeconds(s.backoff)])
            && (Grab in e <==> ready)
  {
    EnsureOpenSpec(c, s, dev);
    var afterOpen := EnsureOpen(c, s, dev);
    assert Grab !in afterOpen.2;
  }

  /**
   * One iteration, the reads: a retrieve happens only past the gate; a closed
   * gate ends in a sleep for the rest of the interval; a failed grab or
   * retrieve ends in the failure path (release, report offline).
   */
  lemma IterationReads(c: Settings, s: WorkerState, dev: Device, now: real)
    requires Inv(c, s)
    ensures var t := Iteration(c, s, dev, now).0;
            var e := Iteration(c, s, dev, now).1;
            var ready := (s.hasCap && dev.isOpened) || dev.opens;
            var gateClosed := now - s.lastEmit < t.emitInterval;
            && (Retrieve in e ==> !gateClosed)
            && (ready && dev.grabs && gateClosed ==>
                  Retrieve !in e && e[|e| - 1] == SleepMs(GateSleepMs(t.emitInterval, now - s.lastEmit)))
            && (ready && (!dev.grabs || (!gateClosed && dev.retrieved.None?)) ==>
                  ReleaseHandle in e && e[|e| - 1] == StatusChanged(false))
  {
    EnsureOpenSpec(c, s, dev);
    var afterOpen := EnsureOpen(c, s, dev);
    assert Retrieve !in afterOpen.2;
  }

  /**
   * One iteration, the frames: a frame is emitted exactly when the handle was
   * ready, the grab succeeded, the gate was open, the retrieve returned a
   * frame and the resize did not fail; it is the downsampled frame, appended to
   * the bounded buffer at time `now`; a failed resize ends in the 0.2 s sleep of
   * the exception handler with the handle kept; without a frame the buffer and
   * the last emit time stay.
   */
  lemma IterationFrames(c: Settings, s: WorkerState, dev: Device, now: real)
    requires Inv(c, s)
    ensures var t := Iteration(c, s, dev, now).0;
            var e := Iteration(c, s, dev, now).1;
            var ready := (s.hasCap && dev.isOpened) || dev.opens;
            var gateClosed := now - s.lastEmit < t.emitInterval;
            var shrunk := if dev.retrieved.Some? then Downsample(dev.retrieved.value, s.downsampleMaxDim, dev.resizedId) else None;
            && ((exists f :: FrameReady(f) in e) <==> ready && dev.grabs && !gateClosed && shrunk.Some?)
            && (ready && dev.grabs && !gateClosed && dev.retrieved.Some? && shrunk.None? ==>
                  t.hasCap && e[|e| - 1] == SleepSeconds(ExceptionSleep))
            && (forall f :: FrameReady(f) in e ==>
                  && shrunk == Some(f)
                  && t.lastEmit == now
                  && t.buffer == BoundedDeque.Append(s.buffer, f, c.maxlen))
            && ((forall f :: FrameReady(f) !in e) ==> t.buffer == s.buffer && t.lastEmit == s.lastEmit)
  {
    EnsureOpenSpec(c, s, dev);
    var afterOpen := EnsureOpen(c, s, dev);
    assert forall f :: FrameReady(f) !in afterOpen.2;
  }

  /**
   * `run`: iterations while the run flag is set, for as long as the device
   * script lasts (the flag is only cleared by `stop` from another thread).
   */
  function Loop(c: Settings, s: WorkerState, script: seq<Device>, clock: seq<real>): (WorkerState, seq<Event>)
    requires |script| == |clock| && Inv(c, s)
    decreases |script|
  {
    if !s.running || script == [] then (s, [])
    else
      IterationInv(c, s, script[0], clock[0]);
      var step := Iteration(c, s, script[0], clock[0]);
      var rest := Loop(c, step.0, script[1..], clock[1..]);
      (rest.0, step.1 + rest.1)
  }

  /** One more iteration at position `i` of the script. */
  lemma LoopTurn(c: Settings, s: WorkerState, script: seq<Device>, clock: seq<real>, i: nat)
    requires |script| == |clock| && i < |script| && s.running && Inv(c, s)
    ensures Inv(c, Iteration(c, s, script[i], clock[i]).0)
    ensures var step := Iteration(c, s, script[i], clock[i]);
            var rest := Loop(c, step.0, script[i + 1..], clock[i + 1..]);
            Loop(c, s, script[i..], clock[i..]) == (rest.0, step.1 + rest.1)
  {
    IterationInv(c, s, script[i], clock[i]);
    assert script[i..][1..] == script[i + 1..] && clock[i..][1..] == clock[i + 1..];
  }

  /**
   * A run split as "done so far, then the rest" stays split that way when one
   * more step moves from the rest to what is done.
   */
  lemma Glue<S, E>(whole: (S, seq<E>), left: (S, seq<E>), right: (S, seq<E>), done: seq<E>, step: seq<E>)
    requires whole == (left.0, done + left.1) && left == (right.0, step + right.1)
    ensures whole == (right.0, (done + step) + right.1)
  {
    assert done + (step + right.1) == (done + step) + right.1;
  }

  /** `BackoffAfter` counted from one failure later. */
  lemma {:induction false} BackoffAfterShift(b: real, k: nat)
    ensures BackoffAfter(NextBackoff(b), k) == BackoffAfter(b, k + 1)
    decreases k
  {
    if k > 0 {
      BackoffAfterShift(b, k - 1);
    }
  }

  /** The trace of `k` failed opens starting from backoff `b`: try, release, sleep. */
  function FailedOpenTrace(b: real, k: nat): seq<Event>
    decreases k
  {
    if k == 0 then [] else [OpenAttempt, ReleaseHandle, SleepSeconds(b)] + FailedOpenTrace(NextBackoff(b), k - 1)
  }

  /** No frame is ever emitted and online is never reported while opens fail. */
  lemma {:induction false} FailedOpenTraceQuiet(b: real, k: nat)
    ensures forall f :: FrameReady(f) !in FailedOpenTrace(b, k)
    ensures StatusChanged(true) !in FailedOpenTrace(b, k)
    ensures |FailedOpenTrace(b, k)| == 3 * k
    decreases k
  {
    if k > 0 {
      FailedOpenTraceQuiet(NextBackoff(b), k - 1);
    }
  }

  /**
   * While the camera stays closed and will not open, every iteration is a failed
   * open: after `k` of them the backoff is `BackoffAfter(b, k)`, nothing else
   * changes, and the trace is `k` rounds of try, release and sleep.
   */
  lemma {:induction false} FailedOpensLoop(c: Settings, s: WorkerState, script: seq<Device>, clock: seq<real>)
    requires |script| == |clock| && s.running && Inv(c, s)
    requires forall i :: 0 <= i < |script| ==> !script[i].isOpened && !script[i].opens
    ensures Loop(c, s, script, clock) == (s.(backoff := BackoffAfter(s.backoff, |script|)), FailedOpenTrace(s.backoff, |script|))
    decreases |script|
  {
    if script != [] {
      var t := s.(backoff := NextBackoff(s.backoff));
      BackoffMonotoneBounded(s.backoff, 0);
      assert Iteration(c, s, script[0], clock[0]) == (t, [OpenAttempt, ReleaseHandle, SleepSeconds(s.backoff)]);
      FailedOpensLoop(c, t, script[1..], clock[1..]);
      BackoffAfterShift(s.backoff, |script| - 1);
    }
  }

  /**
   * A camera that is gone from the start: after `k` failed iterations a fresh
   * worker waits `min(1.5^k, 10)` seconds before its next try, has slept
   * through every earlier backoff and has emitted nothing.
   */
  lemma OutageBackoff(c: Settings, s: WorkerState, script: seq<Device>, clock: seq<real>)
    requires |script| == |clock| && s.running && Inv(c, s) && s.backoff == InitialBackoff
    requires forall i :: 0 <= i < |script| ==> !script[i].isOpened && !script[i].opens
    ensures var (u, e) := Loop(c, s, script, clock);
            var k := |script|;
            && u.backoff == (if Pow15(k) < MaxReconnectBackoff then Pow15(k) else MaxReconnectBackoff)
            && (forall f :: FrameReady(f) !in e) && |e| == 3 * k
  {
    FailedOpensLoop(c, s, script, clock);
    BackoffAfterFailures(|script|);
    FailedOpenTraceQuiet(s.backoff, |script|);
  }

  /**
   * A new worker: running, no handle, initial backoff, nothing emitted yet
   * (`_last_emit` 0), the 30 fps interval until a handle opens, empty ring.
   */
  function Started(targetFps: Option<real>, downsampleMaxDim: Option<nat>): WorkerState
  {
    WorkerState(true, InitialBackoff, false, 0.0, targetFps, 1.0 / FallbackFps, downsampleMaxDim, [])
  }

  class CaptureWorker {
    /** `deque(maxlen=maxlen)` capacity of the diagnostic ring. */
    const maxlen: nat
    /** `capture_width` and `capture_height` requested when a handle opens. */
    const captureWidth: Option<int>
    const captureHeight: Option<int>
    var running: bool
    var reconnectBackoff: real
    /** `self._cap is not None`. */
    var hasCap: bool
    var lastEmit: real
    var targetFps: Option<real>
    var emitInterval: real
    var downsampleMaxDim: Option<nat>
    var buffer: seq<Frame>

    function Config(): Settings
    {
      Settings(maxlen, captureWidth, captureHeight)
    }

    function State(): WorkerState
      reads this
    {
      WorkerState(running, reconnectBackoff, hasCap, lastEmit, targetFps, emitInterval, downsampleMaxDim, buffer)
    }

    ghost predicate Valid()
      reads this
    {
      Inv(Config(), State())
    }

    constructor (maxlen: nat, targetFps: Option<real>, captureWidth: Option<int>, captureHeight: Option<int>,
                 downsampleMaxDim: Option<nat>)
      ensures Valid()
      ensures Config() == Settings(maxlen, captureWidth, captureHeight)
      ensures State() == Started(targetFps, downsampleMaxDim)
    {
      this.maxlen := maxlen;
      this.captureWidth := captureWidth;
      this.captureHeight := captureHeight;
      running := true;
      reconnectBackoff := InitialBackoff;
      hasCap := false;
      lastEmit := 0.0;
      this.targetFps := targetFps;
      emitInterval := 1.0 / FallbackFps;
      this.downsampleMaxDim := downsampleMaxDim;
      buffer := [];
    }

    /**
     * `_open_capture`: open a new handle; if it opens, request MJPG, the capture
     * size, one buffer and the target rate, keep it and derive the interval;
     * otherwise release it and keep whatever handle was held.
     */
    method OpenCapture(dev: Device) returns (events: seq<Event>)
      requires Valid()
      modifies this`hasCap, this`emitInterval
      ensures Valid()
      ensures dev.opens ==> && hasCap
                            && emitInterval == IntervalFor(ConfiguredFps(targetFps, dev.reportedFps))
                            && events == [OpenAttempt] + OpenRequests(Config(), targetFps)
      ensures !dev.opens ==> && hasCap == old(hasCap) && emitInterval == old(emitInterval)
                             && events == [OpenAttempt, ReleaseHandle]
    {
      events := [OpenAttempt];
      if !dev.opens {
        events := events + [ReleaseHandle];
        return;
      }
      events := events + OpenRequests(Config(), targetFps);
      hasCap := true;
      ConfigureFpsFromCamera(dev.reportedFps);
    }

    /** `_ensure_capture_open`. */
    method EnsureCaptureOpen(dev: Device) returns (ready: bool, events: seq<Event>)
      requires Valid()
      modifies this`hasCap, this`emitInterval, this`reconnectBackoff
      ensures Valid()
      ensures (ready, State(), events) == EnsureOpen(Config(), old(State()), dev)
    {
      if hasCap && dev.isOpened {
        return true, [];
      }
      events := OpenCapture(dev);
      if hasCap && dev.opens {
        reconnectBackoff := InitialBackoff;
        return true, events + [StatusChanged(true)];
      }
      ghost var s0 := old(State());
      assert !dev.opens;
      assert !(s0.hasCap && dev.isOpened);
      assert State() == s0;
      events := events + [SleepSeconds(reconnectBackoff)];
      reconnectBackoff := NextBackoff(reconnectBackoff);
      ready := false;
      assert State() == s0.(backoff := NextBackoff(s0.backoff));
      assert events == [OpenAttempt, ReleaseHandle, SleepSeconds(s0.backoff)];
    }

    /** `_configure_fps_from_camera`: derive the emit interval when a handle has just opened. */
    method ConfigureFpsFromCamera(reportedFps: real)
      requires Valid()
      modifies this`emitInterval
      ensures Valid()
      ensures emitInterval == IntervalFor(ConfiguredFps(targetFps, reportedFps))
    {
      var fps := if targetFps.Some? && targetFps.value > 0.0 then targetFps.value else reportedFps;
      if fps <= 1.0 || fps > MaxUsableFps {
        fps := FallbackFps;
      }
      emitInterval := IntervalFor(fps);
    }

    /** `_handle_capture_failure`: drop the handle and report offline. */
    method HandleCaptureFailure() returns (events: seq<Event>)
      requires Valid()
      modifies this`hasCap
      ensures Valid() && !hasCap
      ensures events == (if old(hasCap) then [ReleaseHandle] else []) + [StatusChanged(false)]
    {
      events := CloseCapture();
      events := events + [StatusChanged(false)];
    }

    /** `_close_capture`: release the handle, if any, and forget it. */
    method CloseCapture() returns (events: seq<Event>)
      modifies this`hasCap
      ensures !hasCap
      ensures events == if old(hasCap) then [ReleaseHandle] else []
    {
      events := if hasCap then [ReleaseHandle] else [];
      hasCap := false;
    }

    /** One iteration of the `while self._running` loop at monotonic time `now`. */
    method RunIteration(dev: Device, now: real) returns (events: seq<Event>)
      requires Valid()
      modifies this`hasCap, this`emitInterval, this`reconnectBackoff, this`lastEmit, this`buffer
      ensures Valid()
      ensures (State(), events) == Iteration(Config(), old(State()), dev, now)
    {
      var ready;
      ready, events := EnsureCaptureOpen(dev);
      assert Inv(Config(), old(State()));
      if !ready {
        return;
      }
      var read := ReadAndEmit(dev, now);
      events := events + read;
    }

    /** The loop body once the handle is ready: grab, gate, retrieve, shrink, store, emit. */
    method ReadAndEmit(dev: Device, now: real) returns (events: seq<Event>)
      requires Valid() && hasCap
      modifies this`hasCap, this`lastEmit, this`buffer
      ensures Valid()
      ensures (State(), events) == ReadStep(Config(), old(State()), dev, now)
    {
      ghost var s0 := State();
      assert Inv(Config(), s0);
      if !dev.grabs {
        var failure := HandleCaptureFailure();
        events := [Grab] + failure;
        assert State() == s0.(hasCap := false) && failure == Failure;
        return;
      }
      var sinceEmit := now - lastEmit;
      if sinceEmit < emitInterval {
        events := [Grab, SleepMs(GateSleepMs(emitInterval, sinceEmit))];
        return;
      }
      if dev.retrieved.None? {
        var failure := HandleCaptureFailure();
        events := [Grab, Retrieve] + failure;
        assert State() == s0.(hasCap := false) && failure == Failure;
        return;
      }
      var shrunk := Downsample(dev.retrieved.value, downsampleMaxDim, dev.resizedId);
      if shrunk.None? {
        // `cv2.resize` raised; the loop's handler sleeps and carries on
        events := [Grab, Retrieve, SleepSeconds(ExceptionSleep)];
        return;
      }
      var frame := shrunk.value;
      buffer := BoundedDeque.Append(buffer, frame, maxlen);
      events := [Grab, Retrieve, FrameReady(frame)];
      lastEmit := now;
    }

    /**
     * `set_target_fps`: `None` and non-positive values are ignored; otherwise the
     * target and interval `1 / max(1, fps)` are set (no 240 cap here) and the value
     * is pushed to an open handle.
     */
    method SetTargetFps(fps: Option<real>) returns (events: seq<Event>)
      requires Valid()
      modifies this`targetFps, this`emitInterval
      ensures Valid()
      ensures fps.None? || fps.value <= 0.0 ==> events == [] && targetFps == old(targetFps) && emitInterval == old(emitInterval)
      ensures fps.Some? && fps.value > 0.0 ==>
                && targetFps == fps
                && emitInterval == IntervalFor(fps.value)
                && events == if hasCap then [PushFps(fps.value)] else []
    {
      events := [];
      if fps.None? || fps.value <= 0.0 {
        return;
      }
      targetFps := fps;
      emitInterval := IntervalFor(fps.value);
      if hasCap {
        events := [PushFps(fps.value)];
      }
    }

    /** `stop`: clear the run flag and release the handle (the bounded thread join is not modelled). */
    method Stop() returns (events: seq<Event>)
      requires Valid()
      modifies this`running, this`hasCap
      ensures Valid() && !running && !hasCap
      ensures events == if old(hasCap) then [ReleaseHandle] else []
    {
      running := false;
      events := CloseCapture();
    }

    /**
     * `run`: the iterations `Loop` describes, for the device answers `script[i]`
     * at monotonic times `clock[i]`, then the handle is released.
     */
    method Run(script: seq<Device>, clock: seq<real>) returns (events: seq<Event>)
      requires Valid() && |script| == |clock|
      modifies this`hasCap, this`emitInterval, this`reconnectBackoff, this`lastEmit, this`buffer
      ensures Valid() && !hasCap
      ensures var r := Loop(Config(), old(State()), script, clock);
              && State() == r.0.(hasCap := false)
              && events == r.1 + (if r.0.hasCap then [ReleaseHandle] else [])
    {
      ghost var start := State();
      assert Inv(Config(), start);
      events := [];
      var i := 0;
      assert script[0..] == script && clock[0..] == clock;
      assert [] + Loop(Config(), start, script, clock).1 == Loop(Config(), start, script, clock).1;
      while running && i < |script|
        invariant Valid() && 0 <= i <= |script| && running == start.running
        invariant var rest := Loop(Config(), State(), script[i..], clock[i..]);
                  Loop(Config(), start, script, clock) == (rest.0, events + rest.1)
      {
        ghost var before := State();
        LoopTurn(Config(), before, script, clock, i);
        var step := RunIteration(script[i], clock[i]);
        Glue(Loop(Config(), start, script, clock), Loop(Config(), before, script[i..], clock[i..]),
             Loop(Config(), State(), script[i + 1..], clock[i + 1..]), events, step);
        events := events + step;
        i := i + 1;
      }
      var closing := CloseCapture();
      events := events + closing;
    }
  }
}
