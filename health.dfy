/**
 * `log_health_summary` of utils/helpers.py: count the camera tiles that are
 * online, stale and unhealthy, and send the watchdog heartbeat. A tile is
 * represented by what the function reads from it.
 */
module Health {
  import opened Wrappers
  import Systemd

  /** The tile's `_worker`: absent, without an `is_healthy` method, or reporting its health. */
  datatype WorkerProbe = NoWorker | NoHealthCheck | Reports(healthy: bool)

  /** `_latest_frame is not None`, `_last_frame_ts` (0.0 when missing) and `_worker`. */
  datatype TileView = TileView(hasFrame: bool, lastFrameTs: real, worker: WorkerProbe)

  /** The figures of the "Health cameras ..." log line. */
  datatype Summary = Summary(
    online: nat, stale: nat, unhealthyWorkers: nat,
    cameras: nat, placeholders: nat, active: nat, failed: nat)

  /** A frame older than the threshold; a zero timestamp means "never stamped" and is not stale. */
  predicate IsStale(t: TileView, now: real, threshold: real)
  {
    t.hasFrame && t.lastFrameTs > 0.0 && now - t.lastFrameTs > threshold
  }

  predicate IsOnline(t: TileView, now: real, threshold: real)
  {
    t.hasFrame && !IsStale(t, now, threshold)
  }

  /** Only a worker that exposes `is_healthy()` and answers False is unhealthy. */
  predicate IsUnhealthy(t: TileView)
  {
    t.worker.Reports? && !t.worker.healthy
  }

  function CountOnline(ts: seq<TileView>, now: real, threshold: real): nat
  {
    if ts == [] then 0
    else CountOnline(ts[..|ts| - 1], now, threshold) + (if IsOnline(ts[|ts| - 1], now, threshold) then 1 else 0)
  }

  function CountStale(ts: seq<TileView>, now: real, threshold: real): nat
  {
    if ts == [] then 0
    else CountStale(ts[..|ts| - 1], now, threshold) + (if IsStale(ts[|ts| - 1], now, threshold) then 1 else 0)
  }

  function CountUnhealthy(ts: seq<TileView>): nat
  {
    if ts == [] then 0
    else CountUnhealthy(ts[..|ts| - 1]) + (if IsUnhealthy(ts[|ts| - 1]) then 1 else 0)
  }

  function CountWithFrame(ts: seq<TileView>): nat
  {
    if ts == [] then 0
    else CountWithFrame(ts[..|ts| - 1]) + (if ts[|ts| - 1].hasFrame then 1 else 0)
  }

  /**
   * Every tile with a frame is counted exactly once, as online or as stale;
   * tiles without a frame are in neither count.
   */
  lemma {:induction false} OnlinePlusStale(ts: seq<TileView>, now: real, threshold: real)
    ensures CountOnline(ts, now, threshold) + CountStale(ts, now, threshold) == CountWithFrame(ts)
    ensures CountWithFrame(ts) <= |ts|
  {
    if ts != [] {
      OnlinePlusStale(ts[..|ts| - 1], now, threshold);
    }
  }

  /** A fresh timestamp of zero never makes a tile stale, however old "now" is. */
  lemma ZeroTimestampNeverStale(t: TileView, now: real, threshold: real)
    requires t.hasFrame && t.lastFrameTs == 0.0
    ensures IsOnline(t, now, threshold)
  {
  }

  /**
   * `log_health_summary(camera_widgets, placeholder_slots, active_indexes,
   * failed_indexes, stale_threshold_sec)` at wall-clock time `now`: the summary
   * and the heartbeat datagram it sends.
   */
  method LogHealthSummary(
    tiles: seq<TileView>, placeholders: nat, active: set<int>, failed: map<int, real>,
    now: real, staleThresholdSec: real,
    watchdogUsec: Option<string>, notifySocket: Option<string>)
    returns (s: Summary, heartbeat: Option<Systemd.Datagram>)
    ensures s.online == CountOnline(tiles, now, staleThresholdSec)
    ensures s.stale == CountStale(tiles, now, staleThresholdSec)
    ensures s.unhealthyWorkers == CountUnhealthy(tiles)
    ensures s.online + s.stale <= s.cameras == |tiles|
    ensures s.unhealthyWorkers <= |tiles|
    ensures s.placeholders == placeholders && s.active == |active| && s.failed == |failed|
    ensures heartbeat == Systemd.WatchdogHeartbeat(watchdogUsec, notifySocket)
  {
    var online, stale, unhealthy := 0, 0, 0;
    var i := 0;
    while i < |tiles|
      invariant 0 <= i <= |tiles|
      invariant online == CountOnline(tiles[..i], now, staleThresholdSec)
      invariant stale == CountStale(tiles[..i], now, staleThresholdSec)
      invariant unhealthy == CountUnhealthy(tiles[..i]) <= i
    {
      var t := tiles[i];
      assert tiles[..i + 1][..i] == tiles[..i];
      if t.worker.Reports? && !t.worker.healthy {
        unhealthy := unhealthy + 1;
      }
      if t.hasFrame {
        if t.lastFrameTs > 0.0 && now - t.lastFrameTs > staleThresholdSec {
          stale := stale + 1;
        } else {
          online := online + 1;
        }
      }
      i := i + 1;
    }
    assert tiles[..|tiles|] == tiles;
    OnlinePlusStale(tiles, now, staleThresholdSec);
    s := Summary(online, stale, unhealthy, |tiles|, placeholders, |active|, |failed|);
    heartbeat := Systemd.WatchdogHeartbeat(watchdogUsec, notifySocket);
  }
}
