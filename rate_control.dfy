/**
 * Dynamic capture-rate control (main.py, `adjust_fps` inside `main` and
 * `CameraWidget.set_dynamic_fps`). Every check the verdict of
 * `is_system_stressed` feeds two hysteresis counters; after enough stressed
 * checks in a row every camera's capture rate is stepped down by 2 fps, after
 * enough calm checks in a row it is stepped back up towards its baseline.
 * Only the capture rate is changed, never the UI render rate.
 */
module RateControl {
  import opened Wrappers

  const MinDynamicFps: real := 5.0
  const StressHoldCount: nat := 2
  const RecoverHoldCount: nat := 3
  const FpsStep: real := 2.0
  /** The baseline used when a tile has no target rate (`base_target_fps or 30`). */
  const DefaultBaseFps: real := 30.0

  function Max(a: real, b: real): real
  {
    if a >= b then a else b
  }

  function Min(a: real, b: real): real
  {
    if a <= b then a else b
  }

  /** Python's `x or d` on an optional number: None and zero both fall through to `d`. */
  function OrElse(x: Option<real>, d: real): real
  {
    if x.Some? && x.value != 0.0 then x.value else d
  }

  // ---------------------------------------------------------------- one camera

  /** The rate fields of one camera tile. */
  datatype CameraRate = CameraRate(captureEnabled: bool, baseFps: Option<real>, currentFps: Option<real>)

  /** `w.base_target_fps or 30`. */
  function Base(c: CameraRate): real
  {
    OrElse(c.baseFps, DefaultBaseFps)
  }

  /** `w.current_target_fps or base`. */
  function Current(c: CameraRate): real
  {
    OrElse(c.currentFps, Base(c))
  }

  /**
   * `set_dynamic_fps(fps)` on the rate fields: ignored for None or a tile that
   * does not capture; otherwise the rate, raised to at least `MinDynamicFps`,
   * becomes the current one (and is passed on to the worker).
   */
  function SetDynamicFps(c: CameraRate, fps: Option<real>): (r: CameraRate)
    ensures r.captureEnabled == c.captureEnabled && r.baseFps == c.baseFps
    ensures fps.None? || !c.captureEnabled ==> r == c
    ensures fps.Some? && c.captureEnabled ==> r.currentFps.Some? && r.currentFps.value >= MinDynamicFps
    ensures fps.Some? && c.captureEnabled && fps.value >= MinDynamicFps ==> r.currentFps == fps
    ensures fps.Some? && c.captureEnabled && fps.value < MinDynamicFps ==> r.currentFps == Some(MinDynamicFps)
  {
    if fps.None? || !c.captureEnabled then c
    else c.(currentFps := Some(Max(fps.value, MinDynamicFps)))
  }

  /** A stressed step for one camera: `max(MIN_DYNAMIC_FPS, cur - 2)`, applied only if lower. */
  function Lowered(c: CameraRate): CameraRate
  {
    var target := Max(MinDynamicFps, Current(c) - FpsStep);
    if target < Current(c) then SetDynamicFps(c, Some(target)) else c
  }

  /** A calm step for one camera: `min(base, cur + 2)`, applied only if higher. */
  function Raised(c: CameraRate): CameraRate
  {
    var target := Min(Base(c), Current(c) + FpsStep);
    if target > Current(c) then SetDynamicFps(c, Some(target)) else c
  }

  /**
   * The band a capturing tile's rate stays in: between its baseline and the
   * lower of the baseline and `MinDynamicFps`. A tile starts at its baseline.
   */
  predicate InBand(c: CameraRate)
  {
    c.captureEnabled ==> Min(MinDynamicFps, Base(c)) <= Current(c) <= Base(c)
  }

  /** A tile whose current rate is its target rate is in its band. */
  lemma StartsInBand(captureEnabled: bool, targetFps: Option<real>)
    ensures InBand(CameraRate(captureEnabled, targetFps, targetFps))
  {
    var c := CameraRate(captureEnabled, targetFps, targetFps);
    assert Current(c) == Base(c);
  }

  /**
   * A stressed step lowers a capturing tile above the floor by 2 fps, but not
   * below `MinDynamicFps`, leaves every other tile as it was, and keeps the band.
   */
  lemma LoweredStep(c: CameraRate)
    ensures InBand(c) ==> InBand(Lowered(c))
    ensures Lowered(c).baseFps == c.baseFps && Lowered(c).captureEnabled == c.captureEnabled
    ensures Current(Lowered(c)) == (if c.captureEnabled && Current(c) > MinDynamicFps
                                    then Max(MinDynamicFps, Current(c) - FpsStep) else Current(c))
  {
    var target := Max(MinDynamicFps, Current(c) - FpsStep);
    if target < Current(c) && c.captureEnabled {
      assert Lowered(c).currentFps == Some(target);
    }
  }

  /**
   * A calm step raises a capturing tile below its baseline by 2 fps, but not
   * above the baseline, leaves every other tile as it was, and keeps the band.
   */
  lemma RaisedStep(c: CameraRate)
    ensures InBand(c) ==> InBand(Raised(c))
    ensures Raised(c).baseFps == c.baseFps && Raised(c).captureEnabled == c.captureEnabled
    ensures Current(c) <= Current(Raised(c))
    ensures InBand(c) ==> Current(Raised(c)) == (if c.captureEnabled && Current(c) < Base(c)
                                   then Min(Base(c), Current(c) + FpsStep) else Current(c))
  {
    var target := Min(Base(c), Current(c) + FpsStep);
    if target > Current(c) && c.captureEnabled && InBand(c) {
      // Within the band a higher target is at least the floor, so the clamp in
      // `set_dynamic_fps` does not move it.
      assert target >= MinDynamicFps;
      assert Raised(c).currentFps == Some(target);
    }
  }

  // ---------------------------------------------------------------- all cameras

  predicate AllInBand(cams: seq<CameraRate>)
  {
    forall i :: 0 <= i < |cams| ==> InBand(cams[i])
  }

  /** The loop `for w in camera_widgets` of the stressed branch. */
  method LowerAll(cams: seq<CameraRate>) returns (r: seq<CameraRate>)
    ensures |r| == |cams| && (AllInBand(cams) ==> AllInBand(r))
    ensures forall i :: 0 <= i < |r| ==> Current(r[i]) <= Current(cams[i]) && r[i].baseFps == cams[i].baseFps
    ensures forall i :: 0 <= i < |r| ==> r[i] == Lowered(cams[i])
  {
    r := [];
    for k := 0 to |cams|
      invariant |r| == k
      invariant forall i :: 0 <= i < k ==> r[i] == Lowered(cams[i]) && (InBand(cams[i]) ==> InBand(r[i]))
      invariant forall i :: 0 <= i < k ==> Current(r[i]) <= Current(cams[i]) && r[i].baseFps == cams[i].baseFps
    {
      LoweredStep(cams[k]);
      r := r + [Lowered(cams[k])];
    }
  }

  /** The loop `for w in camera_widgets` of the calm branch. */
  method RaiseAll(cams: seq<CameraRate>) returns (r: seq<CameraRate>)
    ensures |r| == |cams| && (AllInBand(cams) ==> AllInBand(r))
    ensures forall i :: 0 <= i < |r| ==> Current(cams[i]) <= Current(r[i]) && r[i].baseFps == cams[i].baseFps
    ensures forall i :: 0 <= i < |r| ==> r[i] == Raised(cams[i])
  {
    r := [];
    for k := 0 to |cams|
      invariant |r| == k
      invariant forall i :: 0 <= i < k ==> r[i] == Raised(cams[i]) && (InBand(cams[i]) ==> InBand(r[i]))
      invariant forall i :: 0 <= i < k ==> Current(cams[i]) <= Current(r[i]) && r[i].baseFps == cams[i].baseFps
    {
      RaisedStep(cams[k]);
      r := r + [Raised(cams[k])];
    }
  }

  // ---------------------------------------------------------------- hysteresis counters

  /** The `stress_counter` dictionary. */
  datatype Counters = Counters(stress: nat, recover: nat)

  /** What one check does to the rates. */
  datatype Action = Hold | StepDown | StepUp

  datatype TickResult = TickResult(counters: Counters, action: Action)

  /** Between checks the counters are below their hold counts, and at most one is non-zero. */
  predicate CountersValid(k: Counters)
  {
    k.stress < StressHoldCount && k.recover < RecoverHoldCount && (k.stress == 0 || k.recover == 0)
  }

  /**
   * One call of `adjust_fps` on the counters: a stressed check counts up
   * `stress` and clears `recover`, a calm one the reverse; a counter that
   * reaches its hold count triggers its step and is cleared. So a step down
   * comes exactly on the second stressed check in a row, a step up exactly on
   * the third calm one.
   */
  function Tick(k: Counters, stressed: bool): (r: TickResult)
    ensures CountersValid(k) ==> CountersValid(r.counters)
    ensures CountersValid(k) ==> (r.action == StepDown <==> stressed && k.stress == StressHoldCount - 1)
    ensures CountersValid(k) ==> (r.action == StepUp <==> !stressed && k.recover == RecoverHoldCount - 1)
  {
    var stress := if stressed then k.stress + 1 else 0;
    var recover := if stressed then 0 else k.recover + 1;
    if stress >= StressHoldCount then TickResult(Counters(0, recover), StepDown)
    else if recover >= RecoverHoldCount then TickResult(Counters(stress, 0), StepUp)
    else TickResult(Counters(stress, recover), Hold)
  }

  datatype RunResult = RunResult(counters: Counters, downs: nat, ups: nat)

  /** A sequence of checks: the final counters and how many steps each way were taken. */
  function Ticks(k: Counters, checks: seq<bool>): RunResult
    decreases |checks|
  {
    if checks == [] then RunResult(k, 0, 0)
    else
      var t := Tick(k, checks[0]);
      var rest := Ticks(t.counters, checks[1..]);
      RunResult(rest.counters,
                rest.downs + (if t.action == StepDown then 1 else 0),
                rest.ups + (if t.action == StepUp then 1 else 0))
  }

  /**
   * `n` stressed checks in a row, after a calm one (or at the start), step down
   * `n / 2` times and never up; so a lone stressed check changes nothing.
   */
  lemma {:induction false} StressedRun(k: Counters, n: nat)
    requires k.stress == 0
    ensures Ticks(k, seq(n, _ => true)).downs == n / StressHoldCount
    ensures Ticks(k, seq(n, _ => true)).ups == 0
    ensures Ticks(k, seq(n, _ => true)).counters.stress == n % StressHoldCount
    decreases n
  {
    if n >= 2 {
      var checks := seq(n, _ => true);
      assert checks[1..] == [true] + seq(n - 2, _ => true);
      assert checks[1..][1..] == seq(n - 2, _ => true);
      var k1 := Tick(k, true).counters;
      var k2 := Tick(k1, true).counters;
      assert k2.stress == 0;
      StressedRun(k2, n - 2);
    } else if n == 1 {
      assert seq(n, _ => true)[1..] == [];
    }
  }

  /**
   * `n` calm checks in a row, after a stressed one (or at the start), step up
   * `n / 3` times and never down.
   */
  lemma {:induction false} CalmRun(k: Counters, n: nat)
    requires k.recover == 0
    ensures Ticks(k, seq(n, _ => false)).ups == n / RecoverHoldCount
    ensures Ticks(k, seq(n, _ => false)).downs == 0
    ensures Ticks(k, seq(n, _ => false)).counters.recover == n % RecoverHoldCount
    decreases n
  {
    var checks := seq(n, _ => false);
    if n >= 3 {
      var c1 := checks[1..];
      var c2 := c1[1..];
      var c3 := c2[1..];
      assert checks[0] == c1[0] == c2[0] == false;
      assert c3 == seq(n - 3, _ => false);
      var k1 := Tick(k, false).counters;
      var k2 := Tick(k1, false).counters;
      var k3 := Tick(k2, false).counters;
      assert k3.recover == 0;
      CalmRun(k3, n - 3);
      assert Ticks(k2, c2).ups == Ticks(k3, c3).ups + 1;
    } else if n == 2 {
      assert checks[0] == checks[1..][0] == false;
      assert checks[1..][1..] == [];
      var k1 := Tick(k, false).counters;
      assert Ticks(k1, checks[1..]) == RunResult(Counters(0, 2), 0, 0);
    } else if n == 1 {
      assert checks[0] == false;
      assert checks[1..] == [];
    }
  }

  /** The controller's state: the counters of `stress_counter`. */
  class RateController {
    var stress: nat
    var recover: nat

    ghost predicate Valid()
      reads this
    {
      CountersValid(Counters(stress, recover))
    }

    /** `stress_counter = {"stress": 0, "recover": 0}`. */
    constructor ()
      ensures Valid() && stress == 0 && recover == 0
    {
      stress := 0;
      recover := 0;
    }

    /**
     * `adjust_fps` given the verdict of `is_system_stressed` and the rate fields
     * of the capturing tiles: the counters move as `Tick` says, and the tiles are
     * all lowered, all raised or left alone accordingly.
     */
    method AdjustFps(stressed: bool, cams: seq<CameraRate>) returns (r: seq<CameraRate>)
      requires Valid()
      modifies this
      ensures Valid() && |r| == |cams| && (AllInBand(cams) ==> AllInBand(r))
      ensures Counters(stress, recover) == Tick(Counters(old(stress), old(recover)), stressed).counters
      ensures var a := Tick(Counters(old(stress), old(recover)), stressed).action;
              forall i :: 0 <= i < |r| ==>
                r[i] == (match a case StepDown => Lowered(cams[i]) case StepUp => Raised(cams[i]) case Hold => cams[i])
    {
      if stressed {
        stress := stress + 1;
        recover := 0;
      } else {
        recover := recover + 1;
        stress := 0;
      }
      r := cams;
      if stress >= StressHoldCount {
        r := LowerAll(cams);
        stress := 0;
      }
      if recover >= RecoverHoldCount {
        r := RaiseAll(cams);
        recover := 0;
      }
    }
  }
}
