/**
 * Camera discovery (main.py): list the `/dev/video*` indexes, probe each index
 * by opening it and grabbing a frame (with a forced release of the device and
 * more attempts when that fails), and keep the indexes that pass a first probe
 * and a second, gentler one. The outcome of every open attempt is an input.
 */
module Discovery {
  import opened Wrappers
  import opened Text

  // ---------------------------------------------------------------- get_video_indexes

  /** Python's `<=` on `str`: code point by code point, a proper prefix first. */
  predicate LexLe(a: string, b: string)
    decreases |a|
  {
    a == [] || (b != [] && (a[0] < b[0] || (a[0] == b[0] && LexLe(a[1..], b[1..]))))
  }

  /** Any two strings are ordered one way or the other. */
  lemma {:induction false} LexTotal(a: string, b: string)
    ensures LexLe(a, b) || LexLe(b, a)
    decreases |a|
  {
    if a != [] && b != [] && a[0] == b[0] {
      LexTotal(a[1..], b[1..]);
    }
  }

  predicate IsSorted(s: seq<string>)
  {
    forall i :: 0 < i < |s| ==> LexLe(s[i - 1], s[i])
  }

  /** `x` placed into the sorted `s` before the first element it does not exceed. */
  function Insert(x: string, s: seq<string>): (r: seq<string>)
    requires IsSorted(s)
    ensures IsSorted(r)
    ensures multiset(r) == multiset(s) + multiset{x}
    ensures |r| == |s| + 1 && (r[0] == x || (s != [] && r[0] == s[0]))
  {
    if s == [] || LexLe(x, s[0]) then [x] + s
    else
      LexTotal(x, s[0]);
      var rest := Insert(x, s[1..]);
      assert s == [s[0]] + s[1..];
      [s[0]] + rest
  }

  /** `sorted(paths)`: the same paths in lexicographic order. */
  function SortPaths(s: seq<string>): (r: seq<string>)
    ensures IsSorted(r)
    ensures multiset(r) == multiset(s)
  {
    if s == [] then []
    else
      assert s == [s[0]] + s[1..];
      Insert(s[0], SortPaths(s[1..]))
  }

  /** The pattern `device.split('video')` cuts at. */
  const Video: string := "video"

  /** `Video` occurs in `s` at position `k`. */
  predicate VideoAt(s: string, k: int)
  {
    0 <= k && k + |Video| <= |s| && s[k..k + |Video|] == Video
  }

  /** The last position at or before `j` where `Video` occurs in `s`. */
  function LastVideoAtOrBefore(s: string, j: int): (r: Option<nat>)
    ensures r.Some? ==> r.value <= j && VideoAt(s, r.value)
    ensures r.Some? ==> forall k :: r.value < k <= j ==> !VideoAt(s, k)
    ensures r.None? ==> forall k :: k <= j ==> !VideoAt(s, k)
    decreases if j < 0 then 0 else j + 1
  {
    if j < 0 then None
    else if VideoAt(s, j) then Some(j)
    else LastVideoAtOrBefore(s, j - 1)
  }

  /**
   * `device.split('video')[-1]`: what follows the last occurrence of "video", or
   * the whole path when there is none. ("video" cannot overlap itself, so
   * Python's left-to-right split ends at that last occurrence.)
   */
  function AfterLastVideo(s: string): (r: string)
    ensures |r| <= |s| && r == s[|s| - |r|..]
    ensures forall k :: !VideoAt(r, k)
    ensures r != s ==> VideoAt(s, |s| - |r| - |Video|)
  {
    match LastVideoAtOrBefore(s, |s| - |Video|)
    case None => s
    case Some(i) =>
      var r := s[i + |Video|..];
      forall k | VideoAt(r, k)
        ensures false
      {
        assert s[i + |Video| + k..i + |Video| + k + |Video|] == r[k..k + |Video|];
        assert VideoAt(s, i + |Video| + k);
      }
      r
  }

  /**
   * `int(text)` for the texts a device path can end with: surrounding whitespace
   * ignored, then an optional sign and one or more decimal digits; anything else
   * is the ValueError that the loop skips.
   */
  function ParseInt(t: string): Option<int>
  {
    ParseSignedDigits(Strip(t))
  }

  /** An optional sign followed by one or more decimal digits, and nothing else. */
  function ParseSignedDigits(u: string): (r: Option<int>)
    ensures r.Some? ==> u != []
  {
    if u == [] then None
    else if u[0] == '+' || u[0] == '-' then
      if AllDigits(u[1..]) then
        var v := DigitsValue(u[1..]) as int;
        Some(if u[0] == '-' then -v else v)
      else None
    else if AllDigits(u) then Some(DigitsValue(u))
    else None
  }

  /** The index of one device path, or None when it does not parse. */
  function ParseIndex(path: string): Option<int>
  {
    ParseInt(AfterLastVideo(path))
  }

  /** The parsed indexes of `paths`, in order, unparsable paths skipped. */
  function ParsedIndexes(paths: seq<string>): seq<int>
  {
    Keep(paths, ParseIndex)
  }

  /** What `get_video_indexes` returns for the paths the glob found. */
  function VideoIndexes(devices: seq<string>): seq<int>
  {
    ParsedIndexes(SortPaths(devices))
  }

  /** `get_video_indexes`: the loop over the sorted paths computes `VideoIndexes`. */
  method GetVideoIndexes(devices: seq<string>) returns (indexes: seq<int>)
    ensures indexes == VideoIndexes(devices)
  {
    indexes := ParseEach(SortPaths(devices));
  }

  /** The loop body of `get_video_indexes`: parse each path in turn, skipping failures. */
  method ParseEach(paths: seq<string>) returns (indexes: seq<int>)
    ensures indexes == ParsedIndexes(paths)
  {
    indexes := [];
    for k := 0 to |paths|
      invariant indexes == ParsedIndexes(paths[..k])
    {
      var parsed := ParseIndex(paths[k]);
      KeepSnoc(paths, k, ParseIndex);
      if parsed.Some? {
        indexes := indexes + [parsed.value];
      }
    }
    assert paths[..|paths|] == paths;
  }

  /** An index is listed iff some path parses to it. */
  lemma ParsedIndexesMembers(paths: seq<string>, x: int)
    ensures x in ParsedIndexes(paths) <==> exists j :: 0 <= j < |paths| && ParseIndex(paths[j]) == Some(x)
  {
    KeepMembers(paths, ParseIndex, x);
  }

  /** Sorting changes the order only: an index is listed iff some device path parses to it. */
  lemma VideoIndexesMembers(devices: seq<string>, x: int)
    ensures x in VideoIndexes(devices) <==> exists d :: d in devices && ParseIndex(d) == Some(x)
  {
    var sorted := SortPaths(devices);
    ParsedIndexesMembers(sorted, x);
    assert forall d :: d in sorted <==> d in devices by {
      forall d
        ensures d in sorted <==> d in devices
      {
        assert d in sorted <==> d in multiset(sorted);
        assert d in devices <==> d in multiset(devices);
      }
    }
  }

  /** Decimal digits of `n`, as `str(n)` writes them. */
  function DecimalString(n: nat): (s: string)
    ensures AllDigits(s) && DigitsValue(s) == n
  {
    var last := ['0' + (n % 10) as char];
    var s := if n < 10 then last else DecimalString(n / 10) + last;
    assert s[..|s| - 1] == (if n < 10 then [] else DecimalString(n / 10));
    s
  }

  /** Digits carry no surrounding whitespace, so `int()` reads them as they are. */
  lemma StripDigits(ds: string)
    requires AllDigits(ds)
    ensures ParseInt(ds) == ParseSignedDigits(ds)
  {
    assert !IsSpace(ds[0]) && !IsSpace(ds[|ds| - 1]);
    assert StripLeft(ds) == ds;
    assert Strip(ds) == ds;
  }

  /** A string of digits parses to its value. */
  lemma ParseDigits(ds: string)
    requires AllDigits(ds)
    ensures ParseInt(ds) == Some(DigitsValue(ds))
  {
    StripDigits(ds);
    assert IsDigit(ds[0]);
  }

  /** In `/dev/video<digits>` the last "video" is the one before the digits. */
  lemma AfterLastVideoOfDevicePath(ds: string)
    requires AllDigits(ds)
    ensures AfterLastVideo("/dev/video" + ds) == ds
  {
    var path := "/dev/video" + ds;
    assert VideoAt(path, 5) by {
      assert path[5..10] == Video;
    }
    forall k | 5 < k <= |path| - |Video|
      ensures !VideoAt(path, k)
    {
      assert path[k] != 'v' by {
        if k < 10 {
          assert path[k] == "/dev/video"[k];
        } else {
          assert path[k] == ds[k - 10];
        }
      }
      assert path[k..k + |Video|][0] == path[k];
    }
  }

  /** A path `/dev/video<digits>` parses to the value of the digits. */
  lemma DevicePathParses(ds: string)
    requires AllDigits(ds)
    ensures ParseIndex("/dev/video" + ds) == Some(DigitsValue(ds))
  {
    AfterLastVideoOfDevicePath(ds);
    ParseDigits(ds);
  }

  /** A path `/dev/video<n>` parses back to `n`. */
  lemma DevicePathRoundTrip(n: nat)
    ensures ParseIndex("/dev/video" + DecimalString(n)) == Some(n)
  {
    DevicePathParses(DecimalString(n));
  }

  /** Paths with a common prefix are ordered by what follows it. */
  lemma {:induction false} LexLeCommonPrefix(pre: string, a: string, b: string)
    ensures LexLe(pre + a, pre + b) == LexLe(a, b)
  {
    if pre != [] {
      assert (pre + a)[0] == (pre + b)[0];
      assert (pre + a)[1..] == pre[1..] + a;
      assert (pre + b)[1..] == pre[1..] + b;
      LexLeCommonPrefix(pre[1..], a, b);
    } else {
      assert pre + a == a && pre + b == b;
    }
  }

  /** `/dev/video2` and `/dev/video10` parse to 2 and 10. */
  lemma TwoAndTenParse()
    ensures ParseIndex("/dev/video2") == Some(2) && ParseIndex("/dev/video10") == Some(10)
  {
    var two, ten := "2", "10";
    assert "/dev/video" + two == "/dev/video2";
    assert "/dev/video" + ten == "/dev/video10";
    assert DigitsValue(two) == 2 by {
      assert two[..0] == [];
    }
    assert DigitsValue(ten) == 10 by {
      assert ten[..1] == "1" && "1"[..0] == [];
    }
    DevicePathParses(two);
    DevicePathParses(ten);
  }

  /** Sorting as text puts `/dev/video10` before `/dev/video2`. */
  lemma SortTenBeforeTwo()
    ensures SortPaths(["/dev/video2", "/dev/video10"]) == ["/dev/video10", "/dev/video2"]
  {
    var p2, p10 := "/dev/video2", "/dev/video10";
    assert !LexLe(p2, p10) by {
      LexLeCommonPrefix("/dev/video", "2", "10");
      assert p2 == "/dev/video" + "2" && p10 == "/dev/video" + "10";
    }
    var one: seq<string> := [p10];
    assert SortPaths(one) == one by {
      assert one[1..] == [];
    }
    assert [p2, p10][1..] == one;
  }

  /** The paths are sorted as text, so `video10` is listed before `video2`. */
  lemma TenBeforeTwo()
    ensures VideoIndexes(["/dev/video2", "/dev/video10"]) == [10, 2]
  {
    SortTenBeforeTwo();
    TwoAndTenParse();
    KeepPair("/dev/video10", "/dev/video2", ParseIndex);
  }

  /** Two elements that both have answers keep them in order. */
  lemma KeepPair(a: string, b: string, f: string -> Option<int>)
    requires f(a).Some? && f(b).Some?
    ensures Keep([a, b], f) == [f(a).value, f(b).value]
  {
    KeepSnoc([a, b], 0, f);
    KeepSnoc([a, b], 1, f);
    assert [a, b][..2] == [a, b];
    assert [a, b][..0] == [];
  }

  // ---------------------------------------------------------------- test_single_camera

  /** Some open attempt numbered `lo` up to `hi` (exclusive) succeeds. */
  predicate AnyOpens(opens: nat -> bool, lo: nat, hi: int)
  {
    exists k: nat | lo <= k < hi :: opens(k)
  }

  /** Python's `range(n)` has `max(n, 0)` elements. */
  function Count(n: int): nat
  {
    if n < 0 then 0 else n
  }

  /**
   * Whether `test_single_camera` finds the camera: one of the first `retries`
   * attempts opens it, or force-release is allowed, `kill_device_holders`
   * answers True (`released`), and one of the next `postKillRetries` attempts
   * opens it. Attempt `k` (counted over the whole call) succeeds iff `opens(k)`.
   */
  predicate ProbeSucceeds(retries: int, allowKill: bool, postKillRetries: int,
                          opens: nat -> bool, released: bool)
  {
    || AnyOpens(opens, 0, retries)
    || (allowKill && released
        && AnyOpens(opens, Count(retries), Count(retries) + postKillRetries))
  }

  /**
   * A `for _ in range(...)` loop of `try_open` calls: attempts `lo`, `lo + 1`, ...
   * up to `hi` (exclusive), stopping at the first that succeeds. Returns the
   * number of the next attempt and whether one succeeded.
   */
  method TryAttempts(opens: nat -> bool, lo: nat, hi: nat) returns (next: nat, ok: bool)
    requires lo <= hi
    ensures ok <==> AnyOpens(opens, lo, hi)
    ensures lo <= next <= hi
    ensures forall j :: lo <= j < next - 1 ==> !opens(j)
    ensures ok ==> lo < next && opens(next - 1)
    ensures !ok ==> next == hi && forall j :: lo <= j < hi ==> !opens(j)
  {
    next := lo;
    while next < hi
      invariant lo <= next <= hi
      invariant forall j :: lo <= j < next ==> !opens(j)
    {
      if opens(next) {
        return next + 1, true;
      }
      // time.sleep(retry_delay)
      next := next + 1;
    }
    ok := false;
  }

  /** What one probe did: its answer, how many open attempts it made, and the forced release. */
  datatype Probe = Probe(found: Option<int>, attempts: nat, killTried: bool, killed: bool)

  /**
   * `test_single_camera(index, retries, _, allow_kill, post_kill_retries, _)`:
   * returns the index right after the first attempt that opens the device and
   * grabs a frame, and None when no attempt does. `released` is the answer
   * `kill_device_holders` would give for this device (modelled in `Holders`,
   * where it is True iff some process other than the caller holds the device).
   * The delays between attempts are not modelled.
   */
  method TestSingleCamera(index: int, retries: int, allowKill: bool, postKillRetries: int,
                          opens: nat -> bool, released: bool) returns (p: Probe)
    ensures p.found == None || p.found == Some(index)
    ensures p.found == Some(index) <==> ProbeSucceeds(retries, allowKill, postKillRetries, opens, released)
    // it stops at the first success
    ensures forall k :: 0 <= k < p.attempts - 1 ==> !opens(k)
    ensures p.found.Some? <==> p.attempts > 0 && opens(p.attempts - 1)
    // the forced release happens only after the plain attempts fail, and more attempts only if it killed something
    ensures p.killTried <==> allowKill && !AnyOpens(opens, 0, retries)
    ensures p.killed <==> p.killTried && released
    ensures p.attempts <= Count(retries) + (if p.killed then Count(postKillRetries) else 0)
    ensures !p.killTried ==> p.found.Some? || p.attempts == Count(retries)
  {
    var r := Count(retries);
    var next, ok := TryAttempts(opens, 0, r);
    assert AnyOpens(opens, 0, r) == AnyOpens(opens, 0, retries);
    if ok {
      return Probe(Some(index), next, false, false);
    }
    if !allowKill {
      return Probe(None, r, false, false);
    }
    if !released {
      return Probe(None, r, true, false);
    }
    var next2, ok2 := TryAttempts(opens, r, r + Count(postKillRetries));
    assert AnyOpens(opens, r, r + Count(postKillRetries)) == AnyOpens(opens, r, r + postKillRetries);
    p := Probe(if ok2 then Some(index) else None, next2, true, true);
  }

  // ---------------------------------------------------------------- find_working_cameras

  /** The open outcomes one index shows to the two probes, and the force-release answer for it. */
  datatype CameraOracle = CameraOracle(firstOpens: nat -> bool, released: bool, secondOpens: nat -> bool)

  /** The first pass probes with the defaults: 3 attempts, force-release, 2 more attempts. */
  predicate PassesFirst(c: CameraOracle)
  {
    ProbeSucceeds(3, true, 2, c.firstOpens, c.released)
  }

  /** The second pass probes with 2 attempts and no force-release. */
  predicate PassesSecond(c: CameraOracle)
  {
    ProbeSucceeds(2, false, 2, c.secondOpens, c.released)
  }

  /** Whether the index passes the first probe, or with `second` the second one. */
  predicate Passes(c: CameraOracle, second: bool)
  {
    if second then PassesSecond(c) else PassesFirst(c)
  }

  /** One pass of `find_working_cameras`: the indexes whose probe finds the camera. */
  method ProbeAll(indexes: seq<int>, cams: int -> CameraOracle, second: bool) returns (ok: seq<int>)
    ensures |ok| <= |indexes|
    ensures forall i :: i in ok <==> i in indexes && Passes(cams(i), second)
  {
    ok := [];
    for k := 0 to |indexes|
      invariant |ok| <= k
      invariant forall i :: i in ok <==> i in indexes[..k] && Passes(cams(i), second)
    {
      assert indexes[..k + 1] == indexes[..k] + [indexes[k]];
      var c := cams(indexes[k]);
      var p;
      if second {
        p := TestSingleCamera(indexes[k], 2, false, 2, c.secondOpens, c.released);
      } else {
        p := TestSingleCamera(indexes[k], 3, true, 2, c.firstOpens, c.released);
      }
      if p.found.Some? {
        ok := ok + [p.found.value];
      }
    }
    assert indexes[..|indexes|] == indexes;
  }

  /**
   * `find_working_cameras`: every listed index is probed, then every index that
   * passed is probed again without force-release; the answer is those that pass
   * both. The thread pool is modelled as a sequential loop, so the answer is
   * stated as a set (the source returns it in completion order).
   */
  method FindWorkingCameras(devices: seq<string>, cams: int -> CameraOracle) returns (working: seq<int>)
    ensures VideoIndexes(devices) == [] ==> working == []
    ensures forall i :: i in working <==> i in VideoIndexes(devices) && PassesFirst(cams(i)) && PassesSecond(cams(i))
    ensures |working| <= |VideoIndexes(devices)|
  {
    var indexes := GetVideoIndexes(devices);
    if indexes == [] {
      return [];
    }
    working := ProbeAll(indexes, cams, false);
    if working != [] {
      working := ProbeAll(working, cams, true);
    }
  }
}
