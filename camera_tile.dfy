/**
 * The frame bookkeeping and rate handling of `CameraWidget` (main.py): the
 * latest frame handed over by the worker, the id that tells a new frame from one
 * already drawn, the count of drawn frames, the offline reset, the dynamic
 * capture rate and attaching a camera to a placeholder tile. Drawing itself
 * (QImage, scaling, styles) is a Qt effect, returned as a `RenderAction`.
 */
module CameraTile {
  import opened Wrappers
  import opened Frames
  import Capture
  import RateControl

  /** What a render tick shows: nothing new, placeholder text, or a frame. */
  datatype RenderAction = Nothing | Placeholder(text: string) | Draw(frame: Frame)

  /**
   * The bookkeeping fields: `_latest_frame`, `_last_rendered_frame` (None or a
   * frame id), `_frame_id` and `frame_count`.
   */
  datatype TileView = TileView(latest: Option<Frame>, lastRendered: Option<nat>, frameId: nat, frameCount: nat)

  /** A rendered id is never ahead of the newest frame id. */
  predicate Bookkept(v: TileView)
  {
    v.lastRendered.Some? ==> v.lastRendered.value <= v.frameId
  }

  /** `on_frame`: a frame replaces the latest one and gets the next id; None is ignored. */
  function Received(v: TileView, frame: Option<Frame>): (r: TileView)
    ensures frame.None? ==> r == v
    ensures frame.Some? ==> r.latest == frame && r.frameId == v.frameId + 1
    ensures r.lastRendered == v.lastRendered && r.frameCount == v.frameCount
  {
    if frame.None? then v else v.(latest := frame, frameId := v.frameId + 1)
  }

  /** `on_status_changed(False)`: forget the frame and the rendered id. */
  function WentOffline(v: TileView): TileView
  {
    v.(latest := None, lastRendered := None)
  }

  /**
   * `_render_latest_frame`: without a frame, show the placeholder once (only
   * if something was rendered before); with a frame, draw it unless its id was
   * the last one drawn, and count the drawing.
   */
  function Render(settingsMode: bool, placeholder: string, v: TileView): (RenderAction, TileView)
  {
    if settingsMode then (Nothing, v)
    else if v.latest.None? then
      if v.lastRendered.Some? then (Placeholder(placeholder), v.(lastRendered := None)) else (Nothing, v)
    else if v.lastRendered == Some(v.frameId) then (Nothing, v)
    else (Draw(v.latest.value), v.(lastRendered := Some(v.frameId), frameCount := v.frameCount + 1))
  }

  /**
   * A frame is drawn exactly when there is one whose id was not the last drawn;
   * `frame_count` counts the drawings; every step keeps the bookkeeping.
   */
  lemma RenderSpec(settingsMode: bool, placeholder: string, v: TileView)
    requires Bookkept(v)
    ensures var (a, w) := Render(settingsMode, placeholder, v);
            && Bookkept(w)
            && (a.Draw? <==> !settingsMode && v.latest.Some? && v.lastRendered != Some(v.frameId))
            && (a.Draw? ==> a.frame == v.latest.value && w.lastRendered == Some(v.frameId))
            && w.frameCount == (if a.Draw? then v.frameCount + 1 else v.frameCount)
            && w.latest == v.latest && w.frameId == v.frameId
  {
  }

  /** Rendering twice in a row without a new frame does nothing the second time. */
  lemma RenderSettles(settingsMode: bool, placeholder: string, v: TileView)
    ensures var w := Render(settingsMode, placeholder, v).1;
            Render(settingsMode, placeholder, w) == (Nothing, w)
  {
  }

  /** A frame received after any bookkept state is drawn by the next render tick of a video tile. */
  lemma NewFrameIsDrawn(placeholder: string, v: TileView, f: Frame)
    requires Bookkept(v)
    ensures Bookkept(Received(v, Some(f)))
    ensures Render(false, placeholder, Received(v, Some(f))).0 == Draw(f)
  {
  }

  /** After going offline, no render tick shows anything until a new frame arrives. */
  lemma OfflineIsQuiet(settingsMode: bool, placeholder: string, v: TileView)
    ensures Bookkept(WentOffline(v))
    ensures Render(settingsMode, placeholder, WentOffline(v)).0 == Nothing
  {
  }

  /**
   * `request_capture_size if request_capture_size else (None, None)`: the
   * width and height the worker requests from the device, if any.
   */
  function CaptureSides(size: Option<(int, int)>): (sides: (Option<int>, Option<int>))
    ensures size.None? ==> sides == (None, None)
    ensures size.Some? ==> sides.0 == Some(size.value.0) && sides.1 == Some(size.value.1)
  {
    if size.Some? then (Some(size.value.0), Some(size.value.1)) else (None, None)
  }

  /** `placeholder_text or "DISCONNECTED"`: an empty or missing text falls back to "DISCONNECTED". */
  function PlaceholderText(text: Option<string>): (p: string)
    ensures p != []
    ensures text.Some? && text.value != [] ==> p == text.value
    ensures text.None? || text.value == [] ==> p == "DISCONNECTED"
  {
    if text.Some? && text.value != [] then text.value else "DISCONNECTED"
  }

  /**
   * What the constructor shows: a video tile that starts no worker shows its
   * placeholder text at once; a tile with a worker (and the settings tile)
   * shows nothing until the first render tick or status change.
   */
  function StartupRender(settingsMode: bool, startsWorker: bool, placeholder: string): (a: RenderAction)
    ensures a.Placeholder? <==> !settingsMode && !startsWorker
    ensures a.Placeholder? ==> a.text == placeholder
    ensures !a.Placeholder? ==> a == Nothing
  {
    if startsWorker then Nothing
    else if !settingsMode then Placeholder(placeholder)
    else Nothing
  }

  /** `max(1, int(ui_fps))`: the render timer's rate, at least one tick per second. */
  function RenderRate(uiFps: int): (r: int)
    ensures r >= 1 && r >= uiFps
    ensures uiFps >= 1 ==> r == uiFps
  {
    if uiFps < 1 then 1 else uiFps
  }

  class Tile {
    const settingsMode: bool
    /** `placeholder_text or "DISCONNECTED"`. */
    const placeholder: string
    /** What the constructor rendered (`_render_placeholder` on a tile without a worker). */
    const startup: RenderAction
    var captureEnabled: bool
    var worker: Capture.CaptureWorker?
    var latest: Option<Frame>
    var lastRendered: Option<nat>
    var frameId: nat
    var frameCount: nat
    var baseTargetFps: Option<real>
    var currentTargetFps: Option<real>
    var downsampleMaxDim: Option<nat>
    /** `ui_render_fps`: 0 on the settings tile (which has no render timer). */
    var uiRenderFps: int

    function View(): TileView
      reads this
    {
      TileView(latest, lastRendered, frameId, frameCount)
    }

    function Rate(): RateControl.CameraRate
      reads this
    {
      RateControl.CameraRate(captureEnabled, baseTargetFps, currentTargetFps)
    }

    /** The worker, if any, as a set (for frames). */
    function WorkerSet(): set<Capture.CaptureWorker>
      reads this
    {
      if worker == null then {} else {worker}
    }

    ghost predicate Valid()
      reads this, worker
    {
      && Bookkept(View())
      && (worker != null ==> worker.Valid())
      && uiRenderFps >= 0
    }

    /**
     * The constructor: a worker (with `maxlen=buffer_size` and the requested
     * capture size) is started only for a capturing tile with a stream; a video
     * tile without one shows its placeholder at once; no frame is known yet;
     * base and current rate are the target rate.
     */
    constructor (settingsMode: bool, placeholderText: Option<string>, enableCapture: bool, streamLink: Option<int>,
                 bufferSize: nat, targetFps: Option<real>, uiFps: int, downsampleMaxDim: Option<nat>,
                 captureSize: Option<(int, int)>)
      ensures Valid()
      ensures this.settingsMode == settingsMode && captureEnabled == enableCapture
      ensures placeholder == PlaceholderText(placeholderText)
      ensures View() == TileView(None, None, 0, 0)
      ensures Rate() == RateControl.CameraRate(enableCapture, targetFps, targetFps)
      ensures (worker != null) == (enableCapture && streamLink.Some?)
      ensures worker != null ==>
                && fresh(worker)
                && worker.Config() == Capture.Settings(bufferSize, CaptureSides(captureSize).0, CaptureSides(captureSize).1)
                && worker.State() == Capture.Started(targetFps, downsampleMaxDim)
      ensures startup == StartupRender(settingsMode, worker != null, placeholder)
      ensures uiRenderFps == if settingsMode then 0 else RenderRate(uiFps)
    {
      this.settingsMode := settingsMode;
      placeholder := PlaceholderText(placeholderText);
      captureEnabled := enableCapture;
      latest := None;
      lastRendered := None;
      frameId := 0;
      frameCount := 0;
      baseTargetFps := targetFps;
      currentTargetFps := targetFps;
      this.downsampleMaxDim := downsampleMaxDim;
      if enableCapture && streamLink.Some? {
        var sides := CaptureSides(captureSize);
        worker := new Capture.CaptureWorker(bufferSize, targetFps, sides.0, sides.1, downsampleMaxDim);
      } else {
        worker := null;
      }
      startup := StartupRender(settingsMode, enableCapture && streamLink.Some?, PlaceholderText(placeholderText));
      uiRenderFps := if settingsMode then 0 else RenderRate(uiFps);
    }

    /** `on_frame`. */
    method OnFrame(frame: Option<Frame>)
      requires Valid()
      modifies this`latest, this`frameId
      ensures Valid()
      ensures View() == Received(old(View()), frame)
    {
      if frame.None? {
        return;
      }
      latest := frame;
      frameId := frameId + 1;
    }

    /** `_render_latest_frame`. */
    method RenderLatest() returns (action: RenderAction)
      requires Valid()
      modifies this`lastRendered, this`frameCount
      ensures Valid()
      ensures (action, View()) == Render(settingsMode, placeholder, old(View()))
    {
      RenderSpec(settingsMode, placeholder, View());
      action := Nothing;
      if settingsMode {
        return;
      }
      if latest.None? {
        if lastRendered.Some? {
          action := Placeholder(placeholder);
          lastRendered := None;
        }
        return;
      }
      if lastRendered == Some(frameId) {
        return;
      }
      lastRendered := Some(frameId);
      action := Draw(latest.value);
      frameCount := frameCount + 1;
    }

    /** `on_status_changed`: going offline clears the frame and shows "DISCONNECTED". */
    method OnStatusChanged(online: bool) returns (action: RenderAction)
      requires Valid()
      modifies this`latest, this`lastRendered
      ensures Valid()
      ensures online ==> View() == old(View()) && action == Nothing
      ensures !online ==> (View() == WentOffline(old(View()))
                           && action == if settingsMode then Nothing else Placeholder("DISCONNECTED"))
    {
      action := Nothing;
      if !online {
        latest := None;
        lastRendered := None;
        if !settingsMode {
          action := Placeholder("DISCONNECTED");
        }
      }
    }

    /**
     * `set_dynamic_fps`: the tile's rate follows `RateControl.SetDynamicFps`,
     * and the worker, when there is one, gets the clamped rate as its target.
     */
    method SetDynamicFps(fps: Option<real>) returns (events: seq<Capture.Event>)
      requires Valid()
      modifies this`currentTargetFps, WorkerSet()`targetFps, WorkerSet()`emitInterval
      ensures Valid()
      ensures Rate() == RateControl.SetDynamicFps(old(Rate()), fps)
      ensures fps.None? || !captureEnabled ==> events == [] && unchanged(WorkerSet())
      ensures worker == null ==> events == []
      ensures fps.Some? && captureEnabled && worker != null ==>
                && currentTargetFps.Some?
                && worker.targetFps == currentTargetFps
                && worker.emitInterval == Capture.IntervalFor(currentTargetFps.value)
                && events == (if worker.hasCap then [Capture.PushFps(currentTargetFps.value)] else [])
    {
      events := [];
      if fps.None? || !captureEnabled {
        return;
      }
      var rate := RateControl.Max(fps.value, RateControl.MinDynamicFps);
      currentTargetFps := Some(rate);
      if worker != null {
        events := worker.SetTargetFps(Some(rate));
      }
    }

    /**
     * `attach_camera`: a tile that already captures with a worker is left alone;
     * otherwise it starts capturing (`StartCapture`).
     */
    method AttachCamera(targetFps: Option<real>, captureSize: Option<(int, int)>, uiFps: Option<int>)
      returns (action: RenderAction)
      requires Valid()
      modifies this
      ensures Valid()
      ensures old(captureEnabled && worker != null) ==> unchanged(this) && action == Nothing
      ensures !old(captureEnabled && worker != null) ==>
                && captureEnabled && worker != null && fresh(worker)
                && worker.Config() == Capture.Settings(1, CaptureSides(captureSize).0, CaptureSides(captureSize).1)
                && worker.State() == Capture.Started(targetFps, downsampleMaxDim)
                && Rate() == RateControl.CameraRate(true, targetFps, targetFps)
                && RateControl.InBand(Rate())
                && View() == old(View()).(latest := None)
                && uiRenderFps == (if uiFps.Some? then RenderRate(uiFps.value) else old(uiRenderFps))
                && action == (if settingsMode then Nothing else Placeholder("CONNECTING..."))
    {
      if captureEnabled && worker != null {
        return Nothing;
      }
      action := StartCapture(targetFps, captureSize, uiFps);
    }

    /**
     * The attaching part of `attach_camera`: capture at the target rate with a
     * fresh single-frame worker, forget any old frame and show "CONNECTING...".
     */
    method StartCapture(targetFps: Option<real>, captureSize: Option<(int, int)>, uiFps: Option<int>)
      returns (action: RenderAction)
      requires Valid()
      modifies this
      ensures Valid()
      ensures captureEnabled && worker != null && fresh(worker)
      ensures worker.Config() == Capture.Settings(1, CaptureSides(captureSize).0, CaptureSides(captureSize).1)
      ensures worker.State() == Capture.Started(targetFps, downsampleMaxDim)
      ensures Rate() == RateControl.CameraRate(true, targetFps, targetFps) && RateControl.InBand(Rate())
      ensures View() == old(View()).(latest := None) && downsampleMaxDim == old(downsampleMaxDim)
      ensures uiRenderFps == (if uiFps.Some? then RenderRate(uiFps.value) else old(uiRenderFps))
      ensures action == (if settingsMode then Nothing else Placeholder("CONNECTING..."))
    {
      captureEnabled := true;
      baseTargetFps := targetFps;
      currentTargetFps := targetFps;
      if uiFps.Some? {
        // `_apply_ui_fps`
        uiRenderFps := RenderRate(uiFps.value);
      }
      var sides := CaptureSides(captureSize);
      worker := new Capture.CaptureWorker(1, targetFps, sides.0, sides.1, downsampleMaxDim);
      latest := None;
      action := if settingsMode then Nothing else Placeholder("CONNECTING...");
      RateControl.StartsInBand(true, targetFps);
    }
  }
}
