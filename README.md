# camera_interface in Dafny

A model of the decision logic of a multi-camera kiosk dashboard for the
Raspberry Pi. The dashboard shows a fixed grid of camera slots. It finds working
`/dev/video*` devices and can force-release a device that another process holds.
It runs one capture worker per camera, each with reconnect backoff and an
emit-rate gate, and reuses frame buffers through a pool. It lowers and restores
capture rates under CPU stress with a hysteresis controller. It attaches
hot-plugged cameras to empty slots under a failure cooldown.

Cameras, threads, shell commands, sensors and Qt widgets are inputs or oracles.
What remains is modelled and proved:

| file | module | models |
|---|---|---|
| `bounded_deque.dfy` | `BoundedDeque` | `collections.deque(maxlen=m).append`: the sliding window shared by the pool and both rings |
| `frames.dfy` | `Frames` | numpy buffers: object identity, shape, dtype |
| `frame_pool.dfy` | `FramePool` | `FramePool` (main.py) as a class over a `seq` |
| `capture_worker.dfy` | `Capture` | `CaptureWorker` of main.py: backoff, fps rule, rate gate, downsample size, loop body, `set_target_fps`, `stop` |
| `camera_tile.dfy` | `CameraTile` | `CameraWidget` bookkeeping: `on_frame`, the render skip logic, `on_status_changed`, `set_dynamic_fps`, the `attach_camera` guard |
| `grid_layout.dfy` | `Layout` | `get_smart_grid` (ui/layout.py; the same in main.py and test.py) |
| `text.dfy` | `Text` | `str.strip`, `str.isdigit`, `splitlines` and `\w`/`\d` over ASCII |
| `discovery.dfy` | `Discovery` | `get_video_indexes`, `test_single_camera`, `find_working_cameras` |
| `holders.dfy` | `Holders` | the lsof and fuser parsers and `kill_device_holders` (utils/helpers.py) |
| `systemd.dfy` | `Systemd` | `systemd_notify` address rewrite (sd_notify(3), unix(7) abstract namespace), `write_watchdog_heartbeat` |
| `health.dfy` | `Health` | `log_health_summary` counting |
| `performance.dfy` | `Performance` | core/performance.py: load ratio, temperature reading, stress verdict |
| `rate_control.dfy` | `RateControl` | `adjust_fps` inside `main` and the rate half of `set_dynamic_fps` |
| `slots.dfy` | `Slots` | slot set-up and `rescan_and_attach` inside `main` |
| `prototype_worker.dfy` | `Prototype` | the prototype `CaptureWorker` of test.py |

Imperative code stays imperative. The pool, both workers, the tile, the rate
controller and the slot manager are classes. Their methods are proved against
specification functions (`Take`/`Put`, `Tick`, `Render`, `Rescan`, ...). The
loops of the source are `while`/`for` loops with invariants, and the lemmas next
to them prove the properties of those functions.

## Model

| member | source | states |
|---|---|---|
| BoundedDeque.Append | main.py:194 | `deque(maxlen=m).append(x)`: below capacity x is appended; at capacity the oldest element falls off first; the length never exceeds m |
| BoundedDeque.AppendAllIsWindow | main.py:236 | after any run of appends the ring holds exactly the last m frames ever appended |
| FramePool.Take | main.py:138-147 | `get` always removes the newest buffer and returns it iff shape and dtype match; otherwise, and on an empty pool, it allocates |
| FramePool.Put | main.py:149-153 | `release(None)` changes nothing; a buffer is appended; a full pool evicts its oldest buffer; never more than `max_size` |
| FramePool.ReleaseThenGetReturnsSame | main.py:138-153 | `release(b)` then `get(b.shape, b.dtype)` returns b itself |
| FramePool.ReleaseThenGetRestores | main.py:138-153 | below capacity, a release followed by any get leaves the pool as it was |
| FramePool.Pool.constructor | main.py:134-136 | a new pool is empty with capacity `max_size` |
| FramePool.Pool.Get | main.py:138-147 | the pool and the result follow `Take`; the pool shrinks by one unless empty |
| FramePool.Pool.Release | main.py:149-153 | the pool follows `Put` and stays within capacity |
| FramePool.Pool.Clear | main.py:155-158 | the pool is empty afterwards |
| Capture.NextBackoff | main.py:258-262 | a failed open multiplies the backoff by 1.5, capped at 10 s; within [0, 10] it never decreases |
| Capture.BackoffAfterFailures | main.py:247-263 | after k failures from a fresh start the backoff is exactly min(1.5^k, 10) |
| Capture.BackoffMonotoneBounded | main.py:247-263 | across consecutive failures the backoff never decreases and stays in [1, 10] |
| Capture.ConfiguredFps | main.py:335-346 | the fps the interval is derived from always lies in (1, 240] |
| Capture.ConfiguredFpsRule | main.py:337-343 | a positive target wins over the camera's value; the chosen value is kept iff it lies in (1, 240], else 30 |
| Capture.IntervalFor | main.py:345 | `1/max(1, fps)`: in (0, 1], the exact reciprocal for fps ≥ 1 and 1 below |
| Capture.OpenIntervalBounds | main.py:335-346 | after an open the emit interval is between 1/240 s and 1 s whatever the camera reports |
| Capture.GateSleepMs | main.py:219-224 | a closed gate sleeps 1 to 10 ms, and more than 1 ms only when that much wait remains |
| Capture.DownsampledSize | main.py:270-283 | the size is unchanged when both sides fit; otherwise both sides are at most the maximum and never grow, and a side becomes 0 exactly when side·maximum < the longer side |
| Capture.Downsample | main.py:270-283 | without a positive maximum, or when the frame fits, the frame itself is kept; otherwise the result is the new array of `cv2.resize`, with dtype and channels kept and both sides positive, within the maximum and not grown; it fails (the resize raises) exactly when a side would shrink to 0 pixels |
| Capture.ScaledSideZero | main.py:278-280 | `int(side * max_dim / longest)` is 0 exactly when side·max_dim < longest |
| Capture.ThinFrameCollapses | main.py:270-283 | a 2000×1 frame with maximum 640 scales to 640×0, so its resize fails |
| Capture.RequestedFps | main.py:314-316 | the rate asked of a new handle is the target when it is positive and 0 otherwise |
| Capture.OpenRequestsSpec | main.py:295-316 | an opened handle is asked for MJPG first, then the width and the height, each exactly when it is set and non-zero, then one buffer, and last the requested rate |
| Capture.EnsureOpenSpec | main.py:247-263 | ready iff the held handle is open or a new one opens; an open held handle changes nothing; otherwise a new handle is tried first; an open resets the backoff, sets the interval by the fps rule, asks for MJPG, one buffer and the requested rate and reports online last; a failed open sleeps the old backoff, grows it, keeps whatever handle was held and never reports online; the ring and `_last_emit` are untouched |
| Capture.IterationInv | main.py:204-238 | an iteration keeps backoff in [1, 10], interval in (0, 1] and the ring within capacity; a kept handle leaves backoff and interval alone, a new handle resets the backoff and sets the interval by the fps rule, a failed open grows the backoff |
| Capture.IterationSpec | main.py:204-212 | the handle survives iff it was ready and the grab (and, past the gate, the retrieve) succeeded; a handle that is not ready gives exactly try, release, sleep; a grab happens iff the handle is ready |
| Capture.IterationReads | main.py:208-230 | a retrieve happens only past the gate; on a ready handle whose grab succeeded a closed gate ends the iteration with a sleep of `GateSleepMs` and no retrieve; a failed grab or retrieve ends it with release and offline |
| Capture.IterationFrames | main.py:214-242 | a frame is emitted iff the handle was ready, the grab succeeded, the gate was open, the retrieve returned a frame and its resize did not fail; it is the downsampled frame, it joins the ring and `_last_emit` becomes `now`; a failed resize ends in the 0.2 s sleep of the exception handler with the handle kept; without a frame the ring and `_last_emit` stay |
| Capture.FailedOpenTraceQuiet | main.py:247-263 | failed opens never emit a frame and never report online, three events each |
| Capture.FailedOpensLoop | main.py:200-263 | while the camera is neither open nor opens, k iterations grow the backoff k times, change nothing else and give k rounds of try, release, sleep |
| Capture.OutageBackoff | main.py:200-263 | a fresh worker facing an absent camera for k iterations ends with backoff min(1.5^k, 10), has emitted nothing and produced 3k events |
| Capture.CaptureWorker.constructor | main.py:172-198 | ring capacity, width and height as given; running, no handle, backoff 1.0, `_last_emit` 0, interval 1/30, empty ring |
| Capture.CaptureWorker.OpenCapture | main.py:285-333 | a handle that opens is kept, gets the requests of `OpenRequests` in order and its interval by the fps rule; one that does not is released and the held handle and interval stay |
| Capture.CaptureWorker.EnsureCaptureOpen | main.py:247-263 | readiness, new state and events are those of `EnsureOpen`, whose properties `EnsureOpenSpec` proves |
| Capture.CaptureWorker.ConfigureFpsFromCamera | main.py:335-346 | the interval becomes `IntervalFor(ConfiguredFps(target, reported))` |
| Capture.CaptureWorker.HandleCaptureFailure | main.py:265-268 | the handle is released and dropped, then offline is reported |
| Capture.CaptureWorker.CloseCapture | main.py:381-384 | a held handle is released; none is held afterwards |
| Capture.CaptureWorker.ReadAndEmit | main.py:208-242 | grab, gate, retrieve, downsample, store and emit on a ready handle, or the exception handler's sleep when the resize fails: new state and events are those of `ReadStep` |
| Capture.CaptureWorker.RunIteration | main.py:204-238 | new state and events are those of `Iteration`, whose properties `IterationInv`, `IterationSpec`, `IterationReads` and `IterationFrames` prove |
| Capture.CaptureWorker.SetTargetFps | main.py:348-367 | None and values ≤ 0 change nothing; otherwise the target and `1/max(1, fps)` are set with no 240 cap, and the value is pushed to a held handle |
| Capture.CaptureWorker.Stop | main.py:386-391 | the run flag is cleared and the handle released |
| Capture.CaptureWorker.Run | main.py:200-245 | new state and events are those of `Loop` over the device answers, followed by the release of a held handle; the invariant holds and no handle is left (see `FailedOpensLoop`, `OutageBackoff`) |
| CameraTile.Received | main.py:797-805 | a frame becomes the latest and gets the next id; None is ignored |
| CameraTile.RenderSpec | main.py:825-888 | a frame is drawn iff there is one whose id was not the last drawn; `frame_count` counts exactly the drawings; a rendered id is never ahead of the newest |
| CameraTile.RenderSettles | main.py:825-843 | a second render tick without a new frame does nothing |
| CameraTile.NewFrameIsDrawn | main.py:797-843 | a frame received is drawn by the next render tick of a video tile |
| CameraTile.OfflineIsQuiet | main.py:892-900 | after going offline no render tick shows anything until a new frame arrives |
| CameraTile.RenderRate | main.py:572-576 | `max(1, ui_fps)`: at least 1 and equal to `ui_fps` from 1 up |
| CameraTile.PlaceholderText | main.py:528 | `placeholder_text or "DISCONNECTED"`: a non-empty text is kept, a missing or empty one becomes "DISCONNECTED" |
| CameraTile.CaptureSides | main.py:513 | a requested size gives its width and height to the worker; none (or an empty one) gives no request |
| CameraTile.StartupRender | main.py:511-528 | the constructor shows the placeholder iff it is a video tile that starts no worker, and otherwise shows nothing |
| CameraTile.Tile.constructor | main.py:500-538 | a worker is started iff capture is enabled and there is a stream, with `maxlen=buffer_size`, the requested width and height and a fresh state; a video tile without one shows `placeholder_text or "DISCONNECTED"` (`StartupRender`); no frame is known yet; base and current rate are the target; the render rate is `max(1, ui_fps)`, 0 on the settings tile |
| CameraTile.Tile.OnFrame | main.py:797-805 | the tile's bookkeeping follows `Received` |
| CameraTile.Tile.RenderLatest | main.py:825-888 | the action and the new bookkeeping follow `Render` |
| CameraTile.Tile.OnStatusChanged | main.py:892-900 | offline clears the frame and the rendered id and shows "DISCONNECTED" (not on the settings tile); online leaves them alone |
| CameraTile.Tile.SetDynamicFps | main.py:918-930 | the rate follows `RateControl.SetDynamicFps`; with a worker, its target becomes the clamped rate, its interval `IntervalFor` of it, and the rate is pushed to a held handle; without a worker nothing is sent; None or a non-capturing tile changes nothing |
| CameraTile.Tile.AttachCamera | main.py:578-607 | a tile already capturing with a worker is untouched; otherwise it starts capturing as `StartCapture` says |
| CameraTile.Tile.StartCapture | main.py:583-606 | capture on; a fresh worker with `maxlen=1`, the requested size and a fresh state at the target rate; base and current rate are the target; the render rate follows `ui_fps` when given; the old frame is forgotten and nothing else of the bookkeeping changes; "CONNECTING..." is shown |
| Discovery.LexTotal | main.py:1087 | the text order used by `sorted` is total |
| Discovery.Insert | main.py:1087 | inserting into a sorted list keeps it sorted and is a permutation |
| Discovery.SortPaths | main.py:1087 | `sorted(paths)` is sorted as text and a permutation of its input |
| Discovery.AfterLastVideo | main.py:1089 | `split('video')[-1]` is a suffix that contains no "video" and is preceded by "video" whenever the path has one |
| Discovery.GetVideoIndexes | main.py:1083-1093 | the loop returns `VideoIndexes`: the parsed indexes in sorted-path order |
| Text.KeepMembers | main.py:1087-1092 | a value is kept iff the parser accepts some element with that value |
| Discovery.ParseEach | main.py:1087-1092 | each path is parsed in turn and unparsable ones are skipped |
| Discovery.ParsedIndexesMembers | main.py:1087-1092 | an index is listed iff some path parses to it |
| Discovery.VideoIndexesMembers | main.py:1083-1093 | an index is listed iff some device path parses to it |
| Discovery.DevicePathParses | main.py:1089 | `/dev/video<digits>` parses to the value of the digits |
| Discovery.DevicePathRoundTrip | main.py:1089 | `/dev/video<n>` parses back to n |
| Discovery.TenBeforeTwo | main.py:1087-1093 | the paths are sorted as text, so `/dev/video10` is listed before `/dev/video2` |
| Discovery.TryAttempts | main.py:1068-1071 | the retry loop succeeds iff some attempt in range opens, and stops at the first that does |
| Discovery.TestSingleCamera | main.py:1042-1081 | the answer is the probe's own index or None; found iff an early attempt opens or, with force-release allowed and a release, a post-kill attempt opens; it stops at the first success; force-release is tried iff allowed and all plain attempts failed; post-kill attempts run only after a release |
| Discovery.ProbeAll | main.py:1107-1114 | one pass keeps exactly the listed indexes whose probe finds the camera |
| Discovery.FindWorkingCameras | main.py:1095-1134 | no devices gives []; an index is returned iff it is listed and passes both the force-release pass and the no-kill confirmation pass |
| Holders.PidsOfLinesMembers | utils/helpers.py:39-42 | a pid is collected iff some line, once stripped, is all digits with that value |
| Holders.CollectPids | utils/helpers.py:38-43 | the line loop collects exactly the values of the pid lines |
| Holders.GetPidsFromLsof | utils/helpers.py:33-43 | a nonzero exit code or blank output gives the empty set; otherwise exactly the values of the stripped all-digit lines |
| Holders.FindNumbers | utils/helpers.py:52 | every match of `\b(\d+)\b` is a run of digits |
| Holders.FindNumbersSound | utils/helpers.py:52 | every match is a maximal digit run with a word boundary on both sides |
| Holders.FindNumbersComplete | utils/helpers.py:52 | every digit run with a word boundary on both sides is a match |
| Holders.FindNumbersValues | utils/helpers.py:46-54 | the values of the matches are exactly the values of the bounded digit runs |
| Holders.GetPidsFromFuser | utils/helpers.py:46-54 | a nonzero exit code or blank output gives the empty set; otherwise exactly the values of the bounded digit runs (so the 0 of `video0` is not a pid) |
| Holders.TermPhase | utils/helpers.py:86-93 | SIGTERM goes to each pid once until the first PermissionError, which escalates once and ends the loop; without escalation every pid is signalled |
| Holders.KillPhase | utils/helpers.py:97-104 | exactly the pids still alive get SIGKILL, once each; escalation runs exactly for those refused |
| Holders.HolderPids | utils/helpers.py:76-82 | lsof's pids, or fuser's when lsof finds none, never including the caller's pid |
| Holders.KillDeviceHolders | utils/helpers.py:66-106 | with the policy off nothing is queried and the answer is False; fuser is asked iff lsof finds nothing; the answer is True iff a holder other than self remains; then both signal phases run as stated and self is never signalled |
| Systemd.NotifyAddress | utils/helpers.py:113-117 | unset or empty sends nothing; a leading `@` becomes NUL and the rest is kept |
| Systemd.NotifyAddressRoundTrip | utils/helpers.py:116-117 | the rewrite loses nothing: the value is recovered from the address |
| Systemd.Notify | utils/helpers.py:109-128 | a datagram with the message goes to the rewritten address iff one is configured |
| Systemd.WatchdogHeartbeat | utils/helpers.py:131-135 | `WATCHDOG=1` is sent iff `WATCHDOG_USEC` is set and a socket is configured |
| Systemd.AbstractSocketExample | utils/helpers.py:116-117 | `@/run/systemd/notify` connects to `\0/run/systemd/notify` |
| Health.OnlinePlusStale | utils/helpers.py:159-182 | each tile with a frame is counted once, as online or as stale; tiles without a frame are in neither count |
| Health.ZeroTimestampNeverStale | utils/helpers.py:173 | a zero timestamp never makes a tile stale |
| Health.LogHealthSummary | utils/helpers.py:138-195 | the counters equal the online, stale and unhealthy counts; online + stale ≤ cameras; the heartbeat follows `WatchdogHeartbeat` |
| Performance.CpuDivisor | core/performance.py:19 | `os.cpu_count() or 1` is at least 1 and is the count when there is one |
| Performance.LoadRatio | core/performance.py:15-22 | None iff the load cannot be read; never above 1.0; below 1.0 it is load per CPU; 1.0 means load ≥ CPUs |
| Performance.Celsius | core/performance.py:37-40 | values above 1000 are millidegrees divided by 1000; others are unchanged |
| Performance.CpuTempC | core/performance.py:25-43 | the first source yielding a number wins, converted; None iff no source does |
| Performance.SystemStress | core/performance.py:46-60 | stressed iff (load present and ≥ 0.85) or (temperature present and ≥ 70) |
| Performance.NoReadingsNotStressed | core/performance.py:51-60 | with no readings the verdict is False and both readings are None |
| Performance.HighLoadIsStress | core/performance.py:55-56 | load at least 0.85 per CPU is stress whatever the temperature |
| Performance.MillidegreesTripThreshold | core/performance.py:37-58 | a 70000 reading is 70 °C and trips the threshold |
| Layout.OneAndAHalfRootFloor | ui/layout.py:25 | `int(sqrt(n) * 1.5)` exactly: the largest k with (2k)² ≤ 9n |
| Layout.RootAtLeastFour | ui/layout.py:24-27 | from 10 tiles up the scaled root is at least 4, so there are always 4 columns |
| Layout.SmartGrid | ui/layout.py:10-27 | rows, cols ≥ 1; rows·cols ≥ n, so every tile gets a cell; no wasted row; from 10 up (ceil(n/4), 4) |
| Layout.SmartGridTable | ui/layout.py:12-23 | n ≤ 1 (0 and negatives too) gives (1,1); 2→(1,2), 3→(1,3), 4→(2,2), 5-6→(2,3), 7-9→(3,3) |
| RateControl.SetDynamicFps | main.py:918-930 | None or a non-capturing tile changes nothing; otherwise the current rate is the request when it is at least 5 and exactly 5 below that; the base is never touched |
| RateControl.StartsInBand | main.py:507-508 | a tile starts with its current rate equal to its base, inside its band |
| RateControl.LoweredStep | main.py:1332-1338 | a stressed step lowers a capturing tile above the floor to max(5, cur-2) and keeps the band |
| RateControl.RaisedStep | main.py:1346-1352 | a calm step never lowers a rate; in the band it raises a capturing tile below base to min(base, cur+2) and keeps the band |
| RateControl.LowerAll | main.py:1333-1338 | every tile is lowered by `Lowered`, none raised, band kept |
| RateControl.RaiseAll | main.py:1347-1352 | every tile is raised by `Raised`, none lowered, band kept |
| RateControl.Tick | main.py:1325-1353 | the counters stay below their hold counts with at most one non-zero; a step down comes exactly on the second stressed check in a row, a step up on the third calm one |
| RateControl.StressedRun | main.py:1325-1339 | n stressed checks step down n/2 times and never up, so a lone stressed check changes nothing |
| RateControl.CalmRun | main.py:1325-1353 | n calm checks step up n/3 times and never down |
| RateControl.RateController.constructor | main.py:1320 | both counters start at 0 |
| RateControl.RateController.AdjustFps | main.py:1322-1354 | the counters follow `Tick` and every tile is lowered, raised or left as the action says; bands are kept |
| Slots.StartupLayout | main.py:1250-1280 | the cameras are the first min(N, working) working indexes in order, the rest are placeholders in slot order; exactly the known, non-working indexes are stamped failed, each with `now` |
| Slots.Candidates | main.py:1370-1377 | the candidate list is never longer than the listing |
| Slots.CandidatesMembers | main.py:1370-1377 | a candidate is exactly a listed index that is not active and not failed less than 30 s ago |
| Slots.ZeroStampIsNoRecord | main.py:1374-1375 | a failure stamped 0.0 is falsy and never blocks a probe |
| Slots.SelectCandidates | main.py:1370-1377 | the loop returns `Candidates`, and every candidate is eligible |
| Slots.AttachLoop | main.py:1382-1398 | never more probes than candidates |
| Slots.StepLayout | main.py:1390-1393 | a success moves the oldest placeholder to the end of the capturing tiles and keeps the layout |
| Slots.AttachLoopLayout | main.py:1382-1398 | the layout is kept; the capturing tiles and the active set gain exactly the successes, in order |
| Slots.AttachLoopPrefix | main.py:1382-1386 | the probes are a prefix of the candidates, in order, and the loop stops early only when the placeholders run out |
| Slots.AttachLoopStamps | main.py:1390-1398 | a success is active with no failure record; a failure is stamped with the tick's `now` |
| Slots.AttachLoopKeepsOutcome | main.py:1382-1398 | an index not probed keeps its active membership and failure record |
| Slots.RescanSpec | main.py:1363-1398 | nothing happens without placeholders; no active or cooling-down index is probed; cameras plus placeholders always equal the slot count |
| Slots.SlotManager.constructor | main.py:1203-1280 | the slot state is `Startup` and laid out |
| Slots.SlotManager.ProbeForRescan | main.py:1386-1391 | a rescan probe is `test_single_camera` with two attempts and force-release off |
| Slots.SlotManager.ApplyProbe | main.py:1392-1401 | a pass takes the first placeholder's slot, becomes active and loses its failure record; a fail is stamped `now`; the layout is kept |
| Slots.SlotManager.RescanAndAttach | main.py:1363-1398 | the slot state and the probes follow `Rescan`, and the layout is kept |
| Prototype.OpenAttemptSpec | test.py:122-134 | the open succeeds iff some backend opens; V4L2 is tried first and the fallback only after it fails; MJPG is requested iff a handle opened |
| Prototype.LowWindow | test.py:105-120 | a window is low iff it lasted more than 2 s per frame, so a window of at most 2 s is never low |
| Prototype.StallRule | test.py:76-87 | with an open handle no reconnect is forced within 3 s of the last good frame and one is forced after; without an open handle one always is |
| Prototype.ReconnectSpec | test.py:89-103 | the held handle is released first; a handle is held afterwards iff some backend opened, and the last event reports that; the backoff is slept only on failure, then grown to min(b·1.5, 10), and reset to 1.0 on success; no frame; nothing else changes |
| Prototype.Monitor | test.py:105-120 | a window is evaluated only after ≥ 1 s and then restarts with count 0; the low-window count grows iff the window had more than 2 s per frame and is reset otherwise; before that the frame is only counted |
| Prototype.IterationSpec | test.py:46-71 | a frame is emitted iff no reconnect was due and the read succeeded, then it joins the ring, the stall timer moves to now and the backoff stays; a failed read drops the handle and reports offline; a reconnect reports its outcome last, keeps the ring, and restarts the stall timer iff it opened a handle |
| Prototype.StallNeverClears | test.py:46-103 | as written, once every later iteration is more than 3 s after the last good frame, no frame is ever emitted again and the stall timer and ring never change, whatever the device answers |
| Prototype.ReplugRecovers | test.py:46-103 | with the stall timer restarted on reconnect, a good read within 3 s of a reconnect that opened a handle is emitted |
| Prototype.ReplugAfterStall | test.py:46-103 | a camera back after a 5 s outage: as written the next good read is replaced by another reconnect; corrected, it is emitted |
| Prototype.ProtoWorker.constructor | test.py:29-41 | running, no handle, backoff 1.0, empty ring, both clocks at `now` |
| Prototype.ProtoWorker.CloseCapture | test.py:136-143 | a held handle is released; none is held afterwards |
| Prototype.ProtoWorker.TriggerReconnect | test.py:89-103 | the answer is whether a handle is held; new state and events are those of `Reconnect` (`ReconnectSpec`, plus the stall timer restarted on success) |
| Prototype.ProtoWorker.UpdateFpsMonitor | test.py:105-120 | the counters follow `Monitor` |
| Prototype.ProtoWorker.RunIteration | test.py:46-71 | new state and events are those of `Iteration` (`IterationSpec`) |
| Prototype.ProtoWorker.Stop | test.py:145-149 | the run flag is cleared and the handle released |
| Prototype.ProtoWorker.Run | test.py:43-74 | new state and events are those of `Loop` with the corrected reconnect, followed by the release of a held handle; the invariant holds and no handle is left |

## Left out

- Qt: widgets, styles, fullscreen, swaps, touch and mouse handling, timers, and QImage/QPixmap conversion and scaling. Drawing is returned as a `RenderAction`.
- OpenCV: `VideoCapture`, `grab`, `retrieve`, `read` and `get` are per-iteration oracle answers (`Device`, `ProtoDevice`). The `set` calls (FOURCC, width, height, buffer size, FPS) are events (`Capture.OpenRequests`); their return values are ignored, as in the source.
- Capture.EnsureOpen: the second `isOpened()` check after the `set` calls (main.py:320-331) is folded into the one answer `opens`.
- Capture.EnsureOpen: a new handle replaces the held (closed) one without an explicit release, as in the source, where the old object is left to the garbage collector; the model records no event for that.
- Capture.Downsample: `downsample_max_dim` is an `Option<nat>`, so a negative maximum, which is truthy in Python and reaches `_downsample_frame`, is not modelled.
- Capture.OpenCapture: the backend (`CAP_V4L2` on Linux, `CAP_ANY` elsewhere, main.py:288) is not recorded; `OpenAttempt` stands for either.
- `set_downsample_max_dim` (main.py:369-371) only assigns a field and is not modelled as a method; `downsampleMaxDim` is a parameter of the worker and of the tile.
- Discovery.TestSingleCamera: the `time.sleep` calls between attempts (main.py:1071, 1079) are not modelled; they change no decision.
- CameraTile.Tile.constructor: a Dafny constructor returns no value, so what it renders is recorded in the field `startup`.
- Prototype.ProtoWorker.Run, Prototype.ProtoWorker.RunIteration and Prototype.ProtoWorker.TriggerReconnect run the corrected reconnect (see "## Findings"); test.py as written is `Prototype.IterationAsWritten`, which `Prototype.Loop` runs when `corrected` is false.
- Threads and locks: `QThread`, `threading.Lock`, and the `ThreadPoolExecutor`/`as_completed` fan-out. Discovery runs sequentially.
- Discovery.FindWorkingCameras: the result is stated as a set, because the source returns it in completion order, which is nondeterministic.
- Clocks and sleeps are parameters or events. Each prototype iteration uses one `now`, while the source reads `time.time()` several times.
- Exceptions inside the loops (`except Exception`: log and sleep) are not modelled, except the one `cv2.resize` raises for a 0-pixel side, which `Capture.ReadStep` models.
- Discovery.TestSingleCamera: the answer of `kill_device_holders` is an input `released` rather than a call into `Holders`. Each probe attempt's outcome comes from an oracle.
- Slots.SlotManager.RescanAndAttach: the listing of devices is an input, and the probe answers come from one oracle per index for each tick.
- `attach_camera` on a rescanned slot is described by `CameraTile.Tile.AttachCamera`. The slot manager tracks indexes, not widget objects.
- RateControl.RateController.AdjustFps works on the rate fields of the tiles as values. The call to each tile's worker is `CameraTile.Tile.SetDynamicFps`, so aliasing between the list and the widgets is not modelled.
- Capture.DownsampledSize uses exact rational arithmetic and then truncates. Python floats may differ by one pixel; the size bounds hold either way.
- Text: digits, whitespace and `\w` are ASCII plus the separators named in `Text`. Unicode digits, which Python's `isdigit`, `int()` and `\d` also accept, are not modelled, and neither are the underscores `int()` allows between digits.
- `get_fps_stats` and `_print_fps` are float statistics for logging and are not modelled. The same holds for `safe_cleanup`, `choose_profile`, the `main()` wiring and the test.py widget and discovery.
- Performance: the thresholds are taken from main.py (0.85 and 70 °C), because `core/config.py` is not part of this model.
- main.py's own `_get_pids_from_lsof`, `_get_pids_from_fuser` and `kill_device_holders` (main.py:975-1036) are not modelled separately. They behave like the utils/helpers.py versions, except that main.py's has no policy switch; that case is `policyEnabled == true`.
- Behaviour of the code worth knowing, which the model follows:
  - the indexes are listed in text order of the paths (video10 before video2), not in ascending order;
  - `find_working_cameras` returns the indexes in completion order;
  - `adjust_fps` changes capture rates only, never the UI render rate.

## Findings

| source | as written | input that shows it | evidently intended | confidence | as-written member | corrected member |
|---|---|---|---|---|---|---|
| test.py:89-103 | a successful `_trigger_reconnect` leaves `last_good_frame_time` where it was, so after any gap of more than 3 s every later iteration forces another reconnect and no frame is read again | a camera absent from time 0 that opens again at 5.0 and would read a frame at 5.1 (`Prototype.ReplugAfterStall`) | a reconnect that opened a handle restarts the stall timer, so the next good read is emitted | not executed | Prototype.StallNeverClears | Prototype.ReplugRecovers |
