/**
 * Forced release of a camera device (utils/helpers.py; main.py has the same
 * code without the policy switch): find the processes holding the device with
 * `lsof -t`, or with `fuser -v` when lsof finds none, and terminate them.
 * Command outputs, signal outcomes and liveness checks are inputs; the signals
 * and commands issued are the output.
 */
module Holders {
  import opened Wrappers
  import opened Text

  // ---------------------------------------------------------------- lsof -t

  /** A line of `lsof -t` output that names a pid: all digits once stripped. */
  predicate IsPidLine(line: string)
  {
    AllDigits(Strip(line))
  }

  /**
   * The pids `lsof -t` reports, given its stdout and exit code (`run_cmd` strips
   * stdout): none for a failing command or empty output; otherwise the values of
   * the lines that are all digits, other lines skipped.
   */
  function LsofPids(stdout: string, code: int): set<int>
  {
    var out := Strip(stdout);
    if code != 0 || out == [] then {} else PidsOfLines(Lines(out))
  }

  /** The pid a line names, if it is a pid line. */
  function PidOf(line: string): Option<int>
  {
    if IsPidLine(line) then Some(DigitsValue(Strip(line))) else None
  }

  /** The values of the pid lines among `ls`. */
  function PidsOfLines(ls: seq<string>): set<int>
  {
    set x | x in Keep(ls, PidOf)
  }

  /** A pid is collected iff some line is all digits once stripped and has that value. */
  lemma PidsOfLinesMembers(ls: seq<string>, x: int)
    ensures x in PidsOfLines(ls) <==> exists i :: 0 <= i < |ls| && IsPidLine(ls[i]) && DigitsValue(Strip(ls[i])) == x
  {
    KeepMembers(ls, PidOf, x);
    if x in PidsOfLines(ls) {
      var i :| 0 <= i < |ls| && PidOf(ls[i]) == Some(x);
      assert IsPidLine(ls[i]) && DigitsValue(Strip(ls[i])) == x;
    }
    if exists i :: 0 <= i < |ls| && IsPidLine(ls[i]) && DigitsValue(Strip(ls[i])) == x {
      var i :| 0 <= i < |ls| && IsPidLine(ls[i]) && DigitsValue(Strip(ls[i])) == x;
      assert PidOf(ls[i]) == Some(x);
    }
  }

  /** The values of a list grown by one are the old values and the new one. */
  lemma ElemsSnoc(s: seq<int>, v: int)
    ensures (set x | x in s + [v]) == (set x | x in s) + {v}
  {
  }

  /** The line loop of `get_pids_from_lsof` collects exactly `PidsOfLines`. */
  method CollectPids(ls: seq<string>) returns (pids: set<int>)
    ensures pids == PidsOfLines(ls)
  {
    pids := {};
    for k := 0 to |ls|
      invariant pids == PidsOfLines(ls[..k])
    {
      var line := Strip(ls[k]);
      KeepSnoc(ls, k, PidOf);
      if AllDigits(line) {
        assert PidOf(ls[k]) == Some(DigitsValue(line));
        ElemsSnoc(Keep(ls[..k], PidOf), DigitsValue(line));
        pids := pids + {DigitsValue(line)};
      } else {
        assert PidOf(ls[k]) == None;
      }
    }
    assert ls[..|ls|] == ls;
  }

  /** `get_pids_from_lsof`: nothing for a failing command or empty output, else the pid lines' values. */
  method GetPidsFromLsof(stdout: string, code: int) returns (pids: set<int>)
    ensures pids == LsofPids(stdout, code)
    ensures code != 0 || Strip(stdout) == [] ==> pids == {}
  {
    var out := Strip(stdout);
    if code != 0 || out == [] {
      return {};
    }
    pids := CollectPids(Lines(out));
  }

  // ---------------------------------------------------------------- fuser -v

  /** Index of the first non-digit at or after `i`. */
  function RunEnd(s: string, i: nat): (j: nat)
    requires i <= |s|
    ensures i <= j <= |s|
    ensures forall k :: i <= k < j ==> IsDigit(s[k])
    ensures j < |s| ==> !IsDigit(s[j])
    decreases |s| - i
  {
    if i < |s| && IsDigit(s[i]) then RunEnd(s, i + 1) else i
  }

  /** `s[a..b]` is matched by `\b(\d+)\b`: a run of digits with a word boundary on both sides. */
  predicate IsBoundedRun(s: string, a: int, b: int)
  {
    && 0 <= a < b <= |s|
    && (forall k :: a <= k < b ==> IsDigit(s[k]))
    && (a == 0 || !IsWordChar(s[a - 1]))
    && (b == |s| || !IsWordChar(s[b]))
  }

  /** `re.findall(r"\b(\d+)\b", s)` scanning from position `i`. */
  function FindNumbers(s: string, i: nat): (r: seq<string>)
    requires i <= |s|
    ensures forall k :: 0 <= k < |r| ==> AllDigits(r[k])
    decreases |s| - i
  {
    if i == |s| then []
    else if IsDigit(s[i]) && (i == 0 || !IsWordChar(s[i - 1])) then
      var j := RunEnd(s, i);
      if j == |s| || !IsWordChar(s[j]) then [s[i..j]] + FindNumbers(s, j) else FindNumbers(s, j)
    else FindNumbers(s, i + 1)
  }

  /** Every match found from `i` on is a word-bounded digit run starting at or after `i`. */
  lemma {:induction false} FindNumbersSound(s: string, i: nat, x: string)
    requires i <= |s| && x in FindNumbers(s, i)
    ensures exists a, b :: i <= a && IsBoundedRun(s, a, b) && x == s[a..b]
    decreases |s| - i
  {
    if IsDigit(s[i]) && (i == 0 || !IsWordChar(s[i - 1])) {
      var j := RunEnd(s, i);
      if (j == |s| || !IsWordChar(s[j])) && x == s[i..j] {
        assert IsBoundedRun(s, i, j);
      } else {
        FindNumbersSound(s, j, x);
      }
    } else {
      FindNumbersSound(s, i + 1, x);
    }
  }

  /** Every word-bounded digit run starting at or after `i` is found. */
  lemma {:induction false} FindNumbersComplete(s: string, i: nat, a: int, b: int)
    requires i <= |s| && i <= a && IsBoundedRun(s, a, b)
    ensures s[a..b] in FindNumbers(s, i)
    decreases |s| - i
  {
    if IsDigit(s[i]) && (i == 0 || !IsWordChar(s[i - 1])) {
      var j := RunEnd(s, i);
      if a >= j {
        FindNumbersComplete(s, j, a, b);
      } else if a == i {
        // The run from `i` ends exactly at `j`: digits continue up to `j`, and `s[j]` is not a digit.
        assert b == j;
      }
      // Otherwise `s[a - 1]` lies inside the run from `i`, so `a` is not at a word boundary.
    } else if a != i {
      FindNumbersComplete(s, i + 1, a, b);
    }
  }

  /**
   * The pids `fuser -v` reports: none for a failing command or empty output;
   * otherwise the values of the maximal digit runs that have a word boundary on
   * both sides (so the `0` of `video0` is not a pid).
   */
  function FuserPids(stdout: string, code: int): set<int>
  {
    var out := Strip(stdout);
    if code != 0 || out == [] then {}
    else set a, b | 0 <= a < b <= |out| && IsBoundedRun(out, a, b) :: DigitsValue(out[a..b])
  }

  /** The values of the regex matches are exactly the values of the word-bounded digit runs. */
  lemma FindNumbersValues(out: string)
    ensures (set i | 0 <= i < |FindNumbers(out, 0)| :: DigitsValue(FindNumbers(out, 0)[i]))
            == set a, b | 0 <= a < b <= |out| && IsBoundedRun(out, a, b) :: DigitsValue(out[a..b])
  {
    var found := FindNumbers(out, 0);
    forall x | x in found
      ensures exists a, b :: 0 <= a < b <= |out| && IsBoundedRun(out, a, b) && DigitsValue(out[a..b]) == DigitsValue(x)
    {
      FindNumbersSound(out, 0, x);
    }
    forall a, b | 0 <= a < b <= |out| && IsBoundedRun(out, a, b)
      ensures out[a..b] in found
    {
      FindNumbersComplete(out, 0, a, b);
    }
  }

  /** `get_pids_from_fuser`: the regex scan over the output finds exactly `FuserPids`. */
  method GetPidsFromFuser(stdout: string, code: int) returns (pids: set<int>)
    ensures pids == FuserPids(stdout, code)
    ensures code != 0 || Strip(stdout) == [] ==> pids == {}
  {
    var out := Strip(stdout);
    pids := {};
    if code != 0 || out == [] {
      return;
    }
    var found := FindNumbers(out, 0);
    for k := 0 to |found|
      invariant pids == set i | 0 <= i < k :: DigitsValue(found[i])
    {
      pids := pids + {DigitsValue(found[k])};
    }
    FindNumbersValues(out);
  }

  // ---------------------------------------------------------------- kill_device_holders

  /** What `os.kill(pid, sig)` does: deliver, raise PermissionError, or raise anything else. */
  datatype SignalOutcome = Delivered | PermissionDenied | OtherError

  /** The command whose output named the holders. */
  datatype Tool = Lsof | Fuser

  /** Everything `kill_device_holders` observes about the system. */
  datatype HolderWorld = HolderWorld(
    lsofOut: string, lsofCode: int,      // `lsof -t <path>`
    fuserOut: string, fuserCode: int,    // `fuser -v <path>`
    selfPid: int,                        // `os.getpid()`
    onTerm: int -> SignalOutcome,        // `os.kill(pid, SIGTERM)`
    aliveAfterGrace: int -> bool,        // `is_pid_alive(pid)` after the grace sleep
    onKill: int -> SignalOutcome)        // `os.kill(pid, SIGKILL)`

  /** What was done, phase by phase. */
  datatype ReleaseReport = ReleaseReport(
    result: bool,
    queried: seq<Tool>,        // holder lookups, in order
    holders: set<int>,         // the pids acted upon
    termSent: seq<int>,        // SIGTERM attempts, in order
    termEscalated: bool,       // SIGTERM loop ended at a PermissionError with `sudo fuser -k`
    slept: bool,               // the grace period
    killSent: seq<int>,        // SIGKILL attempts
    killRefused: set<int>)     // SIGKILL refused with PermissionError, each followed by `sudo fuser -k`

  predicate Distinct(s: seq<int>)
  {
    forall i, j :: 0 <= i < j < |s| ==> s[i] != s[j]
  }

  /** A non-empty set has a member: what lets the loops below pick the next pid. */
  lemma NonEmptyHasMember(s: set<int>)
    requires s != {}
    ensures exists x :: x in s
  {
    if forall x :: x !in s {
      assert false;
    }
  }

  /**
   * What the SIGTERM loop over `pids` has done when it ends: each pid signalled at
   * most once, every signal but the last delivered or failed otherwise than by
   * PermissionError, escalation exactly when the last one was refused, and every
   * pid signalled unless it escalated.
   */
  ghost predicate TermPhaseDone(pids: set<int>, onTerm: int -> SignalOutcome, sent: seq<int>, escalated: bool)
  {
    && Distinct(sent)
    && (forall i :: 0 <= i < |sent| ==> sent[i] in pids)
    && (forall i :: 0 <= i < |sent| - 1 ==> onTerm(sent[i]) != PermissionDenied)
    && (escalated <==> |sent| > 0 && onTerm(sent[|sent| - 1]) == PermissionDenied)
    && (!escalated ==> forall p :: p in pids ==> p in sent)
  }

  /**
   * What the SIGKILL loop has done: exactly the pids still alive signalled, each
   * once, and `sudo fuser -k` run exactly for those whose SIGKILL was refused.
   */
  ghost predicate KillPhaseDone(pids: set<int>, alive: int -> bool, onKill: int -> SignalOutcome,
                          sent: seq<int>, refused: set<int>)
  {
    && Distinct(sent)
    && (forall p :: p in sent <==> p in pids && alive(p))
    && (forall p :: p in refused <==> p in sent && onKill(p) == PermissionDenied)
  }

  /**
   * The SIGTERM loop over `pids` in set order: stop after the first
   * PermissionError (which runs `sudo fuser -k` once); other errors are skipped.
   */
  method TermPhase(pids: set<int>, onTerm: int -> SignalOutcome) returns (sent: seq<int>, escalated: bool)
    ensures TermPhaseDone(pids, onTerm, sent, escalated)
  {
    var remaining := pids;
    sent := [];
    escalated := false;
    while remaining != {} && !escalated
      invariant remaining <= pids
      invariant forall p :: p in sent <==> p in pids && p !in remaining
      invariant Distinct(sent) && forall i :: 0 <= i < |sent| ==> sent[i] in pids
      invariant forall i :: 0 <= i < |sent| - 1 ==> onTerm(sent[i]) != PermissionDenied
      invariant escalated <==> |sent| > 0 && onTerm(sent[|sent| - 1]) == PermissionDenied
      decreases remaining
    {
      NonEmptyHasMember(remaining);
      var p :| p in remaining;
      remaining := remaining - {p};
      sent := sent + [p];
      if onTerm(p) == PermissionDenied {
        // `sudo fuser -k <path>`, then leave the loop.
        escalated := true;
      }
    }
  }

  /**
   * The SIGKILL loop: every pid of `pids` still alive is sent SIGKILL once; a
   * PermissionError runs `sudo fuser -k` for it and the loop goes on.
   */
  method KillPhase(pids: set<int>, alive: int -> bool, onKill: int -> SignalOutcome)
    returns (sent: seq<int>, refused: set<int>)
    ensures KillPhaseDone(pids, alive, onKill, sent, refused)
  {
    var remaining := pids;
    sent := [];
    refused := {};
    while remaining != {}
      invariant remaining <= pids
      invariant forall p :: p in sent <==> p in pids && p !in remaining && alive(p)
      invariant Distinct(sent)
      invariant forall p :: p in refused <==> p in sent && onKill(p) == PermissionDenied
      decreases remaining
    {
      NonEmptyHasMember(remaining);
      var p :| p in remaining;
      remaining := remaining - {p};
      if alive(p) {
        sent := sent + [p];
        if onKill(p) == PermissionDenied {
          // `sudo fuser -k <path>`
          refused := refused + {p};
        }
      }
    }
  }

  /** The pids acted upon: lsof's, or fuser's when lsof finds none, without the caller's own pid. */
  function HolderPids(w: HolderWorld): (pids: set<int>)
    ensures w.selfPid !in pids
    ensures LsofPids(w.lsofOut, w.lsofCode) != {} ==> pids == LsofPids(w.lsofOut, w.lsofCode) - {w.selfPid}
    ensures LsofPids(w.lsofOut, w.lsofCode) == {} ==> pids == FuserPids(w.fuserOut, w.fuserCode) - {w.selfPid}
  {
    var found := LsofPids(w.lsofOut, w.lsofCode);
    (if found != {} then found else FuserPids(w.fuserOut, w.fuserCode)) - {w.selfPid}
  }

  /**
   * `kill_device_holders(device_path, grace)`. With the policy switch off nothing
   * is queried and the answer is False. Otherwise lsof is asked, fuser only when
   * lsof finds nothing, the caller's own pid is dropped, and with no pid left the
   * answer is False. Else every holder is sent SIGTERM in set order until the
   * first PermissionError, which runs `sudo fuser -k` once and ends that loop;
   * after the grace period each holder still alive is sent SIGKILL (a
   * PermissionError there runs `sudo fuser -k` for that pid), and the answer is True.
   */
  method KillDeviceHolders(policyEnabled: bool, w: HolderWorld) returns (r: ReleaseReport)
    ensures !policyEnabled ==> r == ReleaseReport(false, [], {}, [], false, false, [], {})
    ensures policyEnabled ==> r.queried == (if LsofPids(w.lsofOut, w.lsofCode) == {} then [Lsof, Fuser] else [Lsof])
    ensures policyEnabled ==> r.holders == HolderPids(w)
    ensures r.result <==> policyEnabled && HolderPids(w) != {}
    ensures !r.result ==> r.termSent == [] && !r.termEscalated && !r.slept && r.killSent == [] && r.killRefused == {}
    ensures r.result ==> TermPhaseDone(r.holders, w.onTerm, r.termSent, r.termEscalated)
    ensures w.selfPid !in r.termSent && w.selfPid !in r.killSent
    ensures r.result ==> r.slept && KillPhaseDone(r.holders, w.aliveAfterGrace, w.onKill, r.killSent, r.killRefused)
  {
    r := ReleaseReport(false, [], {}, [], false, false, [], {});
    if !policyEnabled {
      return;
    }
    var queried := [Lsof];
    var pids := GetPidsFromLsof(w.lsofOut, w.lsofCode);
    if pids == {} {
      queried := queried + [Fuser];
      pids := GetPidsFromFuser(w.fuserOut, w.fuserCode);
    }
    pids := pids - {w.selfPid};
    r := r.(queried := queried, holders := pids);
    if pids == {} {
      return;
    }

    var termSent, escalated := TermPhase(pids, w.onTerm);
    // time.sleep(grace)
    var killSent, refused := KillPhase(pids, w.aliveAfterGrace, w.onKill);
    r := ReleaseReport(true, queried, pids, termSent, escalated, true, killSent, refused);
  }
}
