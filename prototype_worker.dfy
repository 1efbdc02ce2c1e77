/**
 * The prototype `CaptureWorker` of test.py: a simpler capture thread that reads
 * with `read()`, forces a reconnect when the handle is gone or no good frame has
 * arrived for three seconds, grows the reconnect backoff like the main worker,
 * and counts one-second windows with a very low frame rate. What the OpenCV
 * handle answers in one iteration is a `ProtoDevice` value; what the worker does
 * to the outside world is returned as a trace of `ProtoEvent`s.
 */
module Prototype {
  import opened Wrappers
  import opened Frames
  import BoundedDeque
  import Capture

  /** `zero_fps_threshold`: seconds without a good frame before a reconnect is forced. */
  const StallSeconds: real := 3.0
  /** Length of one frame-rate measurement window, in seconds. */
  const FpsWindow: real := 1.0
  /** A window whose measured rate is below this counts as low. */
  const LowFps: real := 0.5
  /** `time.sleep(0.01)` after each emitted frame. */
  const FrameSleep: real := 0.01

  /** The two OpenCV backends `_open_capture` tries, in order. */
  datatype Api = V4L2 | AnyApi

  /**
   * What the device answers during one loop iteration: whether the held handle
   * still reports `isOpened()`, whether a new handle opens on each backend, and
   * what `read()` returns (None for a failed status or an empty frame).
   */
  datatype ProtoDevice = ProtoDevice(isOpened: bool, opensV4l2: bool, opensAny: bool, read: Option<Frame>)

  datatype ProtoEvent =
    | OpenTry(api: Api)          // `cv2.VideoCapture(stream_link, api)`
    | SetMjpg                    // `cap.set(CAP_PROP_FOURCC, MJPG)` on the opened handle
    | ReleaseHandle              // `release()` of a handle
    | Sleep(seconds: real)
    | StatusChanged(online: bool)
    | FrameReady(frame: Frame)

  /** The events of `_open_capture` and whether it succeeded. */
  function OpenAttempt(dev: ProtoDevice): (seq<ProtoEvent>, bool)
  {
    if dev.opensV4l2 then ([OpenTry(V4L2), SetMjpg], true)
    else if dev.opensAny then ([OpenTry(V4L2), ReleaseHandle, OpenTry(AnyApi), SetMjpg], true)
    else ([OpenTry(V4L2), ReleaseHandle, OpenTry(AnyApi), ReleaseHandle], false)
  }

  /** `_open_capture` succeeds iff some backend opens, and V4L2 is always tried first. */
  lemma OpenAttemptSpec(dev: ProtoDevice)
    ensures OpenAttempt(dev).1 <==> dev.opensV4l2 || dev.opensAny
    ensures OpenAttempt(dev).0[0] == OpenTry(V4L2)
    ensures OpenTry(AnyApi) in OpenAttempt(dev).0 <==> !dev.opensV4l2
    ensures SetMjpg in OpenAttempt(dev).0 <==> OpenAttempt(dev).1
  {
  }

  /**
   * One measured window holds at least the frame that closed it; its rate
   * `count / elapsed` is low exactly when the window lasted more than two
   * seconds per frame, so a window of at most two seconds is never low.
   */
  lemma LowWindow(count: nat, elapsed: real)
    requires count >= 1 && elapsed >= FpsWindow
    ensures count as real / elapsed < LowFps <==> elapsed > 2.0 * count as real
    ensures elapsed <= 2.0 ==> !(count as real / elapsed < LowFps)
  {
    var fps := count as real / elapsed;
    assert fps * elapsed == count as real;
    if fps < LowFps {
      assert fps * elapsed < LowFps * elapsed;
    } else {
      assert fps * elapsed >= LowFps * elapsed;
    }
  }

  /** The worker's fields, as one value. */
  datatype ProtoState = ProtoState(
    running: bool,
    backoff: real,            // `_reconnect_backoff`
    hasCap: bool,             // `self._cap is not None`
    buffer: seq<Frame>,
    frameCount: nat,
    fpsCheckStart: real,
    zeroFpsCount: nat,
    lastGoodFrameTime: real)

  /** The backoff stays within [1, 10] seconds and the ring within its `maxlen`. */
  predicate Inv(maxlen: nat, s: ProtoState)
  {
    && Capture.InitialBackoff <= s.backoff <= Capture.MaxReconnectBackoff
    && |s.buffer| <= maxlen
  }

  /** `_needs_reconnect`: no usable handle, or no good frame for more than three seconds. */
  predicate NeedsReconnect(s: ProtoState, isOpened: bool, now: real)
  {
    !s.hasCap || !isOpened || now - s.lastGoodFrameTime > StallSeconds
  }

  /**
   * A good frame defers the stall check: while the handle stays open, no
   * reconnect is forced within three seconds of the last good frame, and one is
   * forced as soon as more than three seconds have passed.
   */
  lemma StallRule(s: ProtoState, now: real)
    requires s.hasCap
    ensures now <= s.lastGoodFrameTime + StallSeconds ==> !NeedsReconnect(s, true, now)
    ensures now > s.lastGoodFrameTime + StallSeconds ==> NeedsReconnect(s, true, now)
    ensures NeedsReconnect(s, false, now)
  {
  }

  /**
   * `_trigger_reconnect` as test.py writes it: close the handle, then open a
   * new one. A failure sleeps the current backoff, grows it and reports
   * offline; a success reports online and resets the backoff. The stall timer
   * `last_good_frame_time` is left alone.
   */
  function ReconnectAsWritten(s: ProtoState, dev: ProtoDevice): (ProtoState, seq<ProtoEvent>)
  {
    var closing := if s.hasCap then [ReleaseHandle] else [];
    var attempt := OpenAttempt(dev);
    if attempt.1 then
      (s.(hasCap := true, backoff := Capture.InitialBackoff), closing + attempt.0 + [StatusChanged(true)])
    else
      (s.(hasCap := false, backoff := Capture.NextBackoff(s.backoff)),
       closing + attempt.0 + [Sleep(s.backoff), StatusChanged(false)])
  }

  /**
   * A reconnect holds a handle exactly when some backend opened, reports that
   * as its last event, releases the old handle first, sleeps the backoff only
   * on failure, resets or grows the backoff accordingly, emits no frame and
   * touches nothing else.
   */
  lemma ReconnectSpec(maxlen: nat, s: ProtoState, dev: ProtoDevice)
    requires Inv(maxlen, s)
    ensures var t := ReconnectAsWritten(s, dev).0;
            var e := ReconnectAsWritten(s, dev).1;
            && Inv(maxlen, t)
            && (t.hasCap <==> dev.opensV4l2 || dev.opensAny)
            && e[|e| - 1] == StatusChanged(t.hasCap)
            && (s.hasCap <==> e[0] == ReleaseHandle)
            && (Sleep(s.backoff) in e <==> !t.hasCap)
            && (t.hasCap ==> t.backoff == Capture.InitialBackoff)
            && (!t.hasCap ==> t.backoff == Capture.NextBackoff(s.backoff) && s.backoff <= t.backoff)
            && (forall f :: FrameReady(f) !in e)
            && t == s.(hasCap := t.hasCap, backoff := t.backoff)
  {
    OpenAttemptSpec(dev);
    var closing := if s.hasCap then [ReleaseHandle] else [];
    var attempt := OpenAttempt(dev);
    assert forall ev :: ev in attempt.0 ==> !ev.FrameReady? && !ev.Sleep?;
    assert forall ev :: ev in closing ==> ev == ReleaseHandle;
  }

  /**
   * `_trigger_reconnect` as evidently intended: like `ReconnectAsWritten`, and
   * a handle that opened restarts the stall timer at `now`.
   */
  function Reconnect(s: ProtoState, dev: ProtoDevice, now: real): (ProtoState, seq<ProtoEvent>)
  {
    var r := ReconnectAsWritten(s, dev);
    if r.0.hasCap then (r.0.(lastGoodFrameTime := now), r.1) else r
  }

  /**
   * `_update_fps_monitor` at time `now`: count the frame; once a window of at
   * least a second has passed, start a new window and count one more low window
   * (more than two seconds per frame) or reset the count.
   */
  function Monitor(s: ProtoState, now: real): (t: ProtoState)
    ensures var elapsed := now - s.fpsCheckStart;
            if elapsed >= FpsWindow then
              && t.frameCount == 0 && t.fpsCheckStart == now
              && t.zeroFpsCount == (if elapsed > 2.0 * (s.frameCount + 1) as real then s.zeroFpsCount + 1 else 0)
            else
              t.frameCount == s.frameCount + 1 && t.fpsCheckStart == s.fpsCheckStart && t.zeroFpsCount == s.zeroFpsCount
    ensures t == s.(frameCount := t.frameCount, fpsCheckStart := t.fpsCheckStart, zeroFpsCount := t.zeroFpsCount)
  {
    var count := s.frameCount + 1;
    var elapsed := now - s.fpsCheckStart;
    if elapsed >= FpsWindow then
      LowWindow(count, elapsed);
      var low := count as real / elapsed < LowFps;
      s.(frameCount := 0, fpsCheckStart := now, zeroFpsCount := if low then s.zeroFpsCount + 1 else 0)
    else
      s.(frameCount := count)
  }

  /**
   * The loop body past the reconnect check: a failed `read()` drops the handle
   * and reports offline; a good frame updates the rate window, refreshes the
   * stall timer, joins the ring and is emitted, followed by a 10 ms sleep.
   */
  function ReadStep(maxlen: nat, s: ProtoState, dev: ProtoDevice, now: real): (ProtoState, seq<ProtoEvent>)
    requires Inv(maxlen, s)
  {
    if dev.read.None? then
      (s.(hasCap := false), (if s.hasCap then [ReleaseHandle] else []) + [StatusChanged(false)])
    else
      var f := dev.read.value;
      (Monitor(s, now).(lastGoodFrameTime := now, buffer := BoundedDeque.Append(s.buffer, f, maxlen)),
       [FrameReady(f), Sleep(FrameSleep)])
  }

  /** One iteration of the `while self._running` loop at time `now`, as test.py writes it. */
  function IterationAsWritten(maxlen: nat, s: ProtoState, dev: ProtoDevice, now: real): (r: (ProtoState, seq<ProtoEvent>))
    requires Inv(maxlen, s)
    ensures Inv(maxlen, r.0) && r.0.running == s.running
  {
    if NeedsReconnect(s, dev.isOpened, now) then ReconnectAsWritten(s, dev) else ReadStep(maxlen, s, dev, now)
  }

  /** One iteration with the corrected reconnect (`Reconnect`), which the worker below runs. */
  function Iteration(maxlen: nat, s: ProtoState, dev: ProtoDevice, now: real): (r: (ProtoState, seq<ProtoEvent>))
    requires Inv(maxlen, s)
    ensures Inv(maxlen, r.0) && r.0.running == s.running
  {
    if NeedsReconnect(s, dev.isOpened, now) then Reconnect(s, dev, now) else ReadStep(maxlen, s, dev, now)
  }

  /**
   * What one (corrected) iteration promises: a frame is emitted exactly when
   * no reconnect was needed and `read()` returned one; it then joins the ring,
   * the stall timer moves to `now` and the backoff stays; a failed read drops
   * the handle and reports offline; a reconnect ends by reporting its outcome,
   * keeps the ring and, when it opened a handle, restarts the stall timer.
   */
  lemma IterationSpec(maxlen: nat, s: ProtoState, dev: ProtoDevice, now: real)
    requires Inv(maxlen, s)
    ensures var t := Iteration(maxlen, s, dev, now).0;
            var e := Iteration(maxlen, s, dev, now).1;
            var reconnects := NeedsReconnect(s, dev.isOpened, now);
            && ((exists f :: FrameReady(f) in e) <==> !reconnects && dev.read.Some?)
            && (!reconnects && dev.read.Some? ==>
                  && e == [FrameReady(dev.read.value), Sleep(FrameSleep)]
                  && t.hasCap && t.lastGoodFrameTime == now && t.backoff == s.backoff
                  && t.buffer == BoundedDeque.Append(s.buffer, dev.read.value, maxlen))
            && (!reconnects && dev.read.None? ==>
                  && !t.hasCap && e == [ReleaseHandle, StatusChanged(false)]
                  && t.buffer == s.buffer && t.backoff == s.backoff && t.lastGoodFrameTime == s.lastGoodFrameTime)
            && (reconnects ==>
                  && (t.hasCap <==> dev.opensV4l2 || dev.opensAny)
                  && e[|e| - 1] == StatusChanged(t.hasCap)
                  && t.buffer == s.buffer
                  && t.lastGoodFrameTime == (if t.hasCap then now else s.lastGoodFrameTime))
  {
    ReconnectSpec(maxlen, s, dev);
  }

  /**
   * `run`: iterations while the run flag is set, for as long as the device
   * script lasts, with the corrected reconnect or as test.py writes it.
   */
  function Loop(maxlen: nat, s: ProtoState, script: seq<ProtoDevice>, clock: seq<real>, corrected: bool)
    : (ProtoState, seq<ProtoEvent>)
    requires |script| == |clock| && Inv(maxlen, s)
    decreases |script|
  {
    if !s.running || script == [] then (s, [])
    else
      var step := if corrected then Iteration(maxlen, s, script[0], clock[0])
                  else IterationAsWritten(maxlen, s, script[0], clock[0]);
      var rest := Loop(maxlen, step.0, script[1..], clock[1..], corrected);
      (rest.0, step.1 + rest.1)
  }

  /**
   * The stall as test.py writes it never clears: once every later iteration
   * happens more than three seconds after the last good frame, no frame is
   * ever emitted again, whatever the device answers (even a camera that opens
   * and reads fine), because a successful reconnect leaves the stall timer
   * where it was and the next check forces another reconnect.
   */
  lemma {:induction false} StallNeverClears(maxlen: nat, s: ProtoState, script: seq<ProtoDevice>, clock: seq<real>)
    requires |script| == |clock| && Inv(maxlen, s)
    requires forall i :: 0 <= i < |clock| ==> clock[i] > s.lastGoodFrameTime + StallSeconds
    ensures var r := Loop(maxlen, s, script, clock, false);
            && (forall f :: FrameReady(f) !in r.1)
            && r.0.lastGoodFrameTime == s.lastGoodFrameTime
            && r.0.buffer == s.buffer
    decreases |script|
  {
    if s.running && script != [] {
      ReconnectSpec(maxlen, s, script[0]);
      var step := IterationAsWritten(maxlen, s, script[0], clock[0]);
      assert step == ReconnectAsWritten(s, script[0]);
      assert forall i :: 0 <= i < |clock[1..]| ==> clock[1..][i] == clock[i + 1];
      StallNeverClears(maxlen, step.0, script[1..], clock[1..]);
    }
  }

  /**
   * The corrected reconnect recovers: after a reconnect that opened a handle,
   * a good read within three seconds is emitted.
   */
  lemma ReplugRecovers(maxlen: nat, s: ProtoState, plug: ProtoDevice, t0: real, read: ProtoDevice, t1: real)
    requires Inv(maxlen, s)
    requires NeedsReconnect(s, plug.isOpened, t0) && (plug.opensV4l2 || plug.opensAny)
    requires t0 <= t1 <= t0 + StallSeconds && read.isOpened && read.read.Some?
    ensures var a := Iteration(maxlen, s, plug, t0).0;
            Iteration(maxlen, a, read, t1).1 == [FrameReady(read.read.value), Sleep(FrameSleep)]
  {
    IterationSpec(maxlen, s, plug, t0);
    var a := Iteration(maxlen, s, plug, t0).0;
    IterationSpec(maxlen, a, read, t1);
  }

  /**
   * The input that shows the stall: a camera unplugged since time 0 opens again
   * at time 5 and would read a frame at time 5.1; as written the frame is not
   * read (the working handle is dropped and reopened instead), with the
   * correction it is emitted.
   */
  lemma ReplugAfterStall(maxlen: nat, f: Frame)
    ensures var s := ProtoState(true, Capture.InitialBackoff, false, [], 0, 0.0, 0, 0.0);
            var plug := ProtoDevice(false, true, false, None);
            var read := ProtoDevice(true, true, true, Some(f));
            && Inv(maxlen, s)
            && Loop(maxlen, s, [plug, read], [5.0, 5.1], false).1
               == [OpenTry(V4L2), SetMjpg, StatusChanged(true), ReleaseHandle, OpenTry(V4L2), SetMjpg, StatusChanged(true)]
            && Loop(maxlen, s, [plug, read], [5.0, 5.1], true).1
               == [OpenTry(V4L2), SetMjpg, StatusChanged(true), FrameReady(f), Sleep(FrameSleep)]
  {
    var s := ProtoState(true, Capture.InitialBackoff, false, [], 0, 0.0, 0, 0.0);
    var plug := ProtoDevice(false, true, false, None);
    var read := ProtoDevice(true, true, true, Some(f));
    var script := [plug, read];
    var clock := [5.0, 5.1];
    assert script[1..] == [read] && clock[1..] == [5.1];
    assert script[1..][1..] == [] && clock[1..][1..] == [];
    assert OpenAttempt(plug) == ([OpenTry(V4L2), SetMjpg], true);
    assert OpenAttempt(read) == ([OpenTry(V4L2), SetMjpg], true);
    assert [] + [OpenTry(V4L2), SetMjpg] + [StatusChanged(true)] == [OpenTry(V4L2), SetMjpg, StatusChanged(true)];
    assert [ReleaseHandle] + [OpenTry(V4L2), SetMjpg] + [StatusChanged(true)]
        == [ReleaseHandle, OpenTry(V4L2), SetMjpg, StatusChanged(true)];
    var reopened := s.(hasCap := true);
    assert IterationAsWritten(maxlen, s, plug, 5.0) == (reopened, [OpenTry(V4L2), SetMjpg, StatusChanged(true)]);
    assert IterationAsWritten(maxlen, reopened, read, 5.1) == (reopened, [ReleaseHandle, OpenTry(V4L2), SetMjpg, StatusChanged(true)]);
    var restarted := reopened.(lastGoodFrameTime := 5.0);
    assert Iteration(maxlen, s, plug, 5.0) == (restarted, [OpenTry(V4L2), SetMjpg, StatusChanged(true)]);
    assert Iteration(maxlen, restarted, read, 5.1).1 == [FrameReady(f), Sleep(FrameSleep)];
    assert Loop(maxlen, reopened, [read], [5.1], false).1 == [ReleaseHandle, OpenTry(V4L2), SetMjpg, StatusChanged(true)] + [];
    assert Loop(maxlen, restarted, [read], [5.1], true).1 == [FrameReady(f), Sleep(FrameSleep)] + [];
  }

  /** One more (corrected) iteration at position `i` of the script. */
  lemma LoopTurn(maxlen: nat, s: ProtoState, script: seq<ProtoDevice>, clock: seq<real>, i: nat)
    requires |script| == |clock| && i < |script| && s.running && Inv(maxlen, s)
    ensures var step := Iteration(maxlen, s, script[i], clock[i]);
            var rest := Loop(maxlen, step.0, script[i + 1..], clock[i + 1..], true);
            Loop(maxlen, s, script[i..], clock[i..], true) == (rest.0, step.1 + rest.1)
  {
    assert script[i..][1..] == script[i + 1..] && clock[i..][1..] == clock[i + 1..];
  }

  class ProtoWorker {
    const maxlen: nat
    var running: bool
    var reconnectBackoff: real
    /** `self._cap is not None`. */
    var hasCap: bool
    var buffer: seq<Frame>
    var frameCount: nat
    var fpsCheckStart: real
    var zeroFpsCount: nat
    var lastGoodFrameTime: real

    function State(): ProtoState
      reads this
    {
      ProtoState(running, reconnectBackoff, hasCap, buffer, frameCount, fpsCheckStart, zeroFpsCount, lastGoodFrameTime)
    }

    ghost predicate Valid()
      reads this
    {
      Inv(maxlen, State())
    }

    /** `__init__` at wall-clock time `now` (the prototype's tiles keep the default ring of 4). */
    constructor (maxlen: nat, now: real)
      ensures Valid() && this.maxlen == maxlen
      ensures State() == ProtoState(true, Capture.InitialBackoff, false, [], 0, now, 0, now)
    {
      this.maxlen := maxlen;
      running := true;
      reconnectBackoff := Capture.InitialBackoff;
      hasCap := false;
      buffer := [];
      frameCount := 0;
      fpsCheckStart := now;
      zeroFpsCount := 0;
      lastGoodFrameTime := now;
    }

    /** `_close_capture`: release the handle, if any, and forget it. */
    method CloseCapture() returns (events: seq<ProtoEvent>)
      modifies this`hasCap
      ensures !hasCap
      ensures events == if old(hasCap) then [ReleaseHandle] else []
    {
      events := if hasCap then [ReleaseHandle] else [];
      hasCap := false;
    }

    /** `_trigger_reconnect` at time `now`, with the stall timer restarted on success (`Reconnect`). */
    method TriggerReconnect(dev: ProtoDevice, now: real) returns (ok: bool, events: seq<ProtoEvent>)
      requires Valid()
      modifies this`hasCap, this`reconnectBackoff, this`lastGoodFrameTime
      ensures Valid()
      ensures ok == hasCap
      ensures (State(), events) == Reconnect(old(State()), dev, now)
    {
      ghost var s0 := State();
      ReconnectSpec(maxlen, s0, dev);
      var closing := CloseCapture();
      var attempt := OpenAttempt(dev);
      if !attempt.1 {
        events := closing + attempt.0 + [Sleep(reconnectBackoff), StatusChanged(false)];
        reconnectBackoff := Capture.NextBackoff(reconnectBackoff);
        assert State() == s0.(hasCap := false, backoff := Capture.NextBackoff(s0.backoff));
        return false, events;
      }
      hasCap := true;
      events := closing + attempt.0 + [StatusChanged(true)];
      reconnectBackoff := Capture.InitialBackoff;
      lastGoodFrameTime := now;
      ok := true;
    }

    /** `_update_fps_monitor` at time `now`. */
    method UpdateFpsMonitor(now: real)
      modifies this`frameCount, this`fpsCheckStart, this`zeroFpsCount
      ensures State() == Monitor(old(State()), now)
    {
      frameCount := frameCount + 1;
      var elapsed := now - fpsCheckStart;
      if elapsed >= FpsWindow {
        var fps := frameCount as real / elapsed;
        frameCount := 0;
        fpsCheckStart := now;
        if fps < LowFps {
          zeroFpsCount := zeroFpsCount + 1;
        } else {
          zeroFpsCount := 0;
        }
      }
    }

    /** One iteration of the `while self._running` loop at time `now` (`Iteration`). */
    method RunIteration(dev: ProtoDevice, now: real) returns (events: seq<ProtoEvent>)
      requires Valid()
      modifies this`hasCap, this`reconnectBackoff, this`lastGoodFrameTime, this`buffer,
               this`frameCount, this`fpsCheckStart, this`zeroFpsCount
      ensures Valid()
      ensures (State(), events) == Iteration(maxlen, old(State()), dev, now)
    {
      ghost var s0 := State();
      assert Inv(maxlen, s0);
      if NeedsReconnect(State(), dev.isOpened, now) {
        var ok;
        ok, events := TriggerReconnect(dev, now);
        return;
      }
      if dev.read.None? {
        events := CloseCapture();
        events := events + [StatusChanged(false)];
        assert State() == s0.(hasCap := false);
        return;
      }
      var frame := dev.read.value;
      UpdateFpsMonitor(now);
      lastGoodFrameTime := now;
      buffer := BoundedDeque.Append(buffer, frame, maxlen);
      events := [FrameReady(frame), Sleep(FrameSleep)];
    }

    /** `stop`: clear the run flag and release the handle (the bounded join is not modelled). */
    method Stop() returns (events: seq<ProtoEvent>)
      requires Valid()
      modifies this`running, this`hasCap
      ensures Valid() && !running && !hasCap
      ensures events == if old(hasCap) then [ReleaseHandle] else []
    {
      running := false;
      events := CloseCapture();
    }

    /**
     * `run`: the iterations `Loop` describes (with the corrected reconnect), for
     * the device answers `script[i]` at times `clock[i]`, then the handle is
     * released.
     */
    method Run(script: seq<ProtoDevice>, clock: seq<real>) returns (events: seq<ProtoEvent>)
      requires Valid() && |script| == |clock|
      modifies this`hasCap, this`reconnectBackoff, this`lastGoodFrameTime, this`buffer,
               this`frameCount, this`fpsCheckStart, this`zeroFpsCount
      ensures Valid() && !hasCap
      ensures var r := Loop(maxlen, old(State()), script, clock, true);
              && State() == r.0.(hasCap := false)
              && events == r.1 + (if r.0.hasCap then [ReleaseHandle] else [])
    {
      ghost var start := State();
      assert Inv(maxlen, start);
      events := [];
      var i := 0;
      assert script[0..] == script && clock[0..] == clock;
      assert [] + Loop(maxlen, start, script, clock, true).1 == Loop(maxlen, start, script, clock, true).1;
      while running && i < |script|
        invariant Valid() && 0 <= i <= |script| && running == start.running
        invariant var rest := Loop(maxlen, State(), script[i..], clock[i..], true);
                  Loop(maxlen, start, script, clock, true) == (rest.0, events + rest.1)
      {
        ghost var before := State();
        LoopTurn(maxlen, before, script, clock, i);
        var step := RunIteration(script[i], clock[i]);
        Capture.Glue(Loop(maxlen, start, script, clock, true), Loop(maxlen, before, script[i..], clock[i..], true),
                     Loop(maxlen, State(), script[i + 1..], clock[i + 1..], true), events, step);
        events := events + step;
        i := i + 1;
      }
      var closing := CloseCapture();
      events := events + closing;
    }
  }
}
