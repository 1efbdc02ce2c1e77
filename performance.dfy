/**
 * core/performance.py (and the identical `_read_cpu_*` / `_is_system_stressed`
 * of main.py): the stress verdict from the 1-minute load average and the CPU
 * temperature. The operating-system reads are inputs.
 */
module Performance {
  import opened Wrappers

  const CpuLoadThreshold: real := 0.85
  const CpuTempThresholdC: real := 70.0

  /** `os.getloadavg()[0]` and `os.cpu_count()` (which may be `None`). */
  datatype LoadSample = LoadSample(load1: real, cpuCount: Option<nat>)

  /** `os.cpu_count() or 1`: an unknown or zero count counts as one CPU. */
  function CpuDivisor(cpuCount: Option<nat>): (d: nat)
    ensures d >= 1
    ensures cpuCount.Some? && cpuCount.value > 0 ==> d == cpuCount.value
  {
    if cpuCount.Some? && cpuCount.value > 0 then cpuCount.value else 1
  }

  /**
   * `read_cpu_load_ratio`: load per CPU, capped at 1.0; `None` when the load
   * average cannot be read (`sample == None`).
   */
  function LoadRatio(sample: Option<LoadSample>): (r: Option<real>)
    ensures r.None? <==> sample.None?
    ensures r.Some? ==> r.value <= 1.0
    ensures r.Some? && r.value < 1.0 ==> r.value * (CpuDivisor(sample.value.cpuCount) as real) == sample.value.load1
    ensures r.Some? && r.value == 1.0 ==> sample.value.load1 >= CpuDivisor(sample.value.cpuCount) as real
  {
    match sample
    case None => None
    case Some(s) =>
      var ratio := s.load1 / (CpuDivisor(s.cpuCount) as real);
      Some(if ratio < 1.0 then ratio else 1.0)
  }

  /** What one temperature source yields. */
  datatype SensorRead =
    | Missing          // `os.path.exists` is false
    | Unreadable       // opening or reading raises
    | Blank            // the stripped content is empty
    | Malformed        // `float(raw)` raises
    | Value(v: real)   // `float(raw)`

  /** Millidegree readings (above 1000) are converted to degrees; smaller values are taken as degrees. */
  function Celsius(v: real): (c: real)
    ensures v > 1000.0 ==> c * 1000.0 == v && c > 1.0
    ensures v <= 1000.0 ==> c == v
  {
    if v > 1000.0 then v / 1000.0 else v
  }

  /**
   * `read_cpu_temp_c` over its sources in order: the first source that yields a
   * number wins (every other outcome moves on to the next source); `None` when
   * no source does.
   */
  function CpuTempC(sources: seq<SensorRead>): (r: Option<real>)
    ensures r.None? <==> forall i :: 0 <= i < |sources| ==> !sources[i].Value?
    ensures r.Some? ==> exists i :: 0 <= i < |sources| && sources[i].Value?
                                  && r.value == Celsius(sources[i].v)
                                  && forall j :: 0 <= j < i ==> !sources[j].Value?
  {
    if sources == [] then None
    else if sources[0].Value? then Some(Celsius(sources[0].v))
    else
      var rest := CpuTempC(sources[1..]);
      assert forall i :: 1 <= i < |sources| ==> sources[i] == sources[1..][i - 1];
      rest
  }

  /** `is_system_stressed`: the verdict together with the two readings it was based on. */
  datatype StressReport = StressReport(stressed: bool, loadRatio: Option<real>, tempC: Option<real>)

  function SystemStress(load: Option<LoadSample>, sources: seq<SensorRead>): (r: StressReport)
    ensures r.loadRatio == LoadRatio(load) && r.tempC == CpuTempC(sources)
    ensures r.stressed <==> ((r.loadRatio.Some? && r.loadRatio.value >= CpuLoadThreshold)
                             || (r.tempC.Some? && r.tempC.value >= CpuTempThresholdC))
  {
    var ratio := LoadRatio(load);
    var temp := CpuTempC(sources);
    var stressed := (ratio.Some? && ratio.value >= CpuLoadThreshold) || (temp.Some? && temp.value >= CpuTempThresholdC);
    StressReport(stressed, ratio, temp)
  }

  /** With neither reading available the system is never considered stressed. */
  lemma NoReadingsNotStressed(sources: seq<SensorRead>)
    requires forall i :: 0 <= i < |sources| ==> !sources[i].Value?
    ensures SystemStress(None, sources) == StressReport(false, None, None)
  {
  }

  /** A saturated machine (load at least 0.85 per CPU) is stressed whatever the temperature. */
  lemma HighLoadIsStress(s: LoadSample, sources: seq<SensorRead>)
    requires s.load1 >= CpuLoadThreshold * (CpuDivisor(s.cpuCount) as real)
    ensures SystemStress(Some(s), sources).stressed
  {
    var d := CpuDivisor(s.cpuCount) as real;
    var ratio := s.load1 / d;
    assert ratio * d == s.load1;
  }

  /** A 70 000 millidegree sysfs reading is 70 °C and trips the temperature threshold. */
  lemma MillidegreesTripThreshold(rest: seq<SensorRead>)
    ensures CpuTempC([Value(70000.0)] + rest) == Some(70.0)
    ensures SystemStress(None, [Value(70000.0)] + rest).stressed
  {
  }
}
