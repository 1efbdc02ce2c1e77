/**
 * The camera slots of the main window and the hot-plug rescan (main.py, inside
 * `main`). A fixed number of slots is filled with the working cameras found at
 * startup, the rest show a placeholder; every few seconds the rescan probes the
 * listed devices that are neither active nor in their failure cooldown and
 * moves the oldest placeholder to each camera that answers.
 */
module Slots {
  import opened Wrappers
  import Discovery

  /** `FAILED_CAMERA_COOLDOWN_SEC`. */
  const FailedCooldown: real := 30.0

  /**
   * The slot bookkeeping: the camera index shown by each capturing tile (in the
   * order of `camera_widgets`), the slot numbers of the placeholder tiles (in
   * the order of `placeholder_slots`), `active_indexes` and `failed_indexes`.
   */
  datatype SlotState = SlotState(cameras: seq<int>, placeholders: seq<nat>, active: set<int>, failed: map<int, real>)

  /**
   * How the slots are laid out: the capturing tiles hold slots 0, 1, ... in
   * order and the placeholders the remaining ones, lowest first.
   */
  predicate Layout(s: SlotState, slotCount: nat)
  {
    && |s.cameras| <= slotCount
    && s.placeholders == seq(slotCount - |s.cameras|, i => |s.cameras| + i)
  }

  // ---------------------------------------------------------------- startup

  /**
   * The state after startup: the first `min(slotCount, |working|)` working
   * cameras get slots in order, every working camera is active, and every known
   * index that is not working is stamped as failed at `now`.
   */
  function Startup(slotCount: nat, working: seq<int>, known: set<int>, now: real): SlotState
  {
    var shown := if |working| <= slotCount then |working| else slotCount;
    SlotState(working[..shown], seq(slotCount - shown, i => shown + i),
              set i | i in working, map i | i in known && i !in working :: now)
  }

  /** Startup fills as many slots as there are working cameras and lays the slots out. */
  lemma StartupLayout(slotCount: nat, working: seq<int>, known: set<int>, now: real)
    ensures Layout(Startup(slotCount, working, known, now), slotCount)
    ensures |Startup(slotCount, working, known, now).cameras| == if |working| <= slotCount then |working| else slotCount
    ensures forall i :: i in Startup(slotCount, working, known, now).failed ==> i in known && i !in working
    ensures var failed := Startup(slotCount, working, known, now).failed;
            forall i :: i in known && i !in working ==> i in failed && failed[i] == now
    ensures Startup(slotCount, working, known, now).cameras
              == working[..if |working| <= slotCount then |working| else slotCount]
  {
  }

  // ---------------------------------------------------------------- rescan_and_attach

  /**
   * Whether the rescan may probe `idx`: not active, and not failed less than
   * `FailedCooldown` seconds ago. A stored time of exactly 0.0 is falsy in
   * Python and so counts as no failure record.
   */
  predicate Eligible(idx: int, active: set<int>, failed: map<int, real>, now: real)
  {
    && idx !in active
    && !(idx in failed && failed[idx] != 0.0 && now - failed[idx] < FailedCooldown)
  }

  /** The candidate list: the eligible indexes, in listing order. */
  function Candidates(indexes: seq<int>, active: set<int>, failed: map<int, real>, now: real): (r: seq<int>)
    ensures |r| <= |indexes|
  {
    if indexes == [] then []
    else
      var init := Candidates(indexes[..|indexes| - 1], active, failed, now);
      var idx := indexes[|indexes| - 1];
      if Eligible(idx, active, failed, now) then init + [idx] else init
  }

  /** A candidate is exactly a listed index that is eligible. */
  lemma {:induction false} CandidatesMembers(indexes: seq<int>, active: set<int>, failed: map<int, real>, now: real, x: int)
    ensures x in Candidates(indexes, active, failed, now) <==> x in indexes && Eligible(x, active, failed, now)
  {
    if indexes != [] {
      var init := indexes[..|indexes| - 1];
      CandidatesMembers(init, active, failed, now, x);
      assert indexes == init + [indexes[|indexes| - 1]];
    }
  }

  /** A failure stamped at 0.0 never blocks a rescan, however recent. */
  lemma ZeroStampIsNoRecord(idx: int, active: set<int>, failed: map<int, real>, now: real)
    requires idx !in active && idx in failed && failed[idx] == 0.0
    ensures Eligible(idx, active, failed, now)
  {
  }

  /** The candidate loop of `rescan_and_attach`. */
  method SelectCandidates(indexes: seq<int>, active: set<int>, failed: map<int, real>, now: real)
    returns (candidates: seq<int>)
    ensures candidates == Candidates(indexes, active, failed, now)
    ensures forall i :: 0 <= i < |candidates| ==> Eligible(candidates[i], active, failed, now)
  {
    candidates := [];
    for k := 0 to |indexes|
      invariant candidates == Candidates(indexes[..k], active, failed, now)
      invariant forall i :: 0 <= i < |candidates| ==> Eligible(candidates[i], active, failed, now)
    {
      assert indexes[..k + 1][..k] == indexes[..k];
      var idx := indexes[k];
      if idx in active {
        continue;
      }
      if idx in failed && failed[idx] != 0.0 && now - failed[idx] < FailedCooldown {
        continue;
      }
      candidates := candidates + [idx];
    }
    assert indexes[..|indexes|] == indexes;
  }

  /** One probe's outcome: its index and whether `test_single_camera` answered. */
  datatype Probed = Probed(index: int, ok: bool)

  datatype AttachResult = AttachResult(state: SlotState, probed: seq<Probed>)

  /**
   * One probe's effect: on success the oldest placeholder takes the camera, the
   * index becomes active and its failure record is dropped; on failure the
   * index is stamped with `now`.
   */
  function Step(s: SlotState, idx: int, ok: bool, now: real): SlotState
    requires s.placeholders != []
  {
    if ok then SlotState(s.cameras + [idx], s.placeholders[1..], s.active + {idx}, s.failed - {idx})
    else s.(failed := s.failed[idx := now])
  }

  /** The attach loop over `candidates`: stop when no placeholder is left, otherwise probe the next candidate. */
  function AttachLoop(s: SlotState, candidates: seq<int>, ok: int -> bool, now: real): (r: AttachResult)
    ensures |r.probed| <= |candidates|
    decreases |candidates|
  {
    if candidates == [] || s.placeholders == [] then AttachResult(s, [])
    else
      var rest := AttachLoop(Step(s, candidates[0], ok(candidates[0]), now), candidates[1..], ok, now);
      AttachResult(rest.state, [Probed(candidates[0], ok(candidates[0]))] + rest.probed)
  }

  /** The indexes of the successful probes, in order. */
  function Attached(probed: seq<Probed>): seq<int>
  {
    if probed == [] then []
    else (if probed[0].ok then [probed[0].index] else []) + Attached(probed[1..])
  }

  function Indexes(probed: seq<Probed>): seq<int>
  {
    seq(|probed|, i requires 0 <= i < |probed| => probed[i].index)
  }

  /** A success keeps the layout: the capturing tiles grow by one, the placeholders lose their first. */
  lemma StepLayout(s: SlotState, slotCount: nat, idx: int, ok: bool, now: real)
    requires Layout(s, slotCount) && s.placeholders != []
    ensures Layout(Step(s, idx, ok, now), slotCount)
  {
    if ok {
      var t := Step(s, idx, ok, now);
      assert |t.cameras| == |s.cameras| + 1;
      assert forall i :: 0 <= i < |t.placeholders| ==> t.placeholders[i] == s.placeholders[i + 1];
    }
  }

  /**
   * The attach loop keeps the layout; the capturing tiles gain exactly the
   * successful probes, in order, and so does the active set.
   */
  lemma {:induction false} AttachLoopLayout(s: SlotState, slotCount: nat, candidates: seq<int>, ok: int -> bool, now: real)
    requires Layout(s, slotCount)
    ensures var r := AttachLoop(s, candidates, ok, now);
            && Layout(r.state, slotCount)
            && r.state.cameras == s.cameras + Attached(r.probed)
            && r.state.active == s.active + set i | i in Attached(r.probed)
    decreases |candidates|
  {
    var r := AttachLoop(s, candidates, ok, now);
    if candidates == [] || s.placeholders == [] {
    } else {
      var idx := candidates[0];
      var next := Step(s, idx, ok(idx), now);
      StepLayout(s, slotCount, idx, ok(idx), now);
      AttachLoopLayout(next, slotCount, candidates[1..], ok, now);
      var rest := AttachLoop(next, candidates[1..], ok, now);
      assert r.probed[1..] == rest.probed;
      assert Attached(r.probed) == (if ok(idx) then [idx] else []) + Attached(rest.probed);
    }
  }

  /**
   * The attach loop probes a prefix of the candidates, in order, records each
   * outcome, and stops early only once the placeholders run out.
   */
  lemma {:induction false} AttachLoopPrefix(s: SlotState, candidates: seq<int>, ok: int -> bool, now: real)
    ensures var r := AttachLoop(s, candidates, ok, now);
            && Indexes(r.probed) == candidates[..|r.probed|]
            && (forall i :: 0 <= i < |r.probed| ==> r.probed[i].ok == ok(r.probed[i].index))
            && (|r.probed| < |candidates| ==> r.state.placeholders == [])
    decreases |candidates|
  {
    var r := AttachLoop(s, candidates, ok, now);
    if candidates == [] || s.placeholders == [] {
      assert Indexes(r.probed) == [];
    } else {
      var idx := candidates[0];
      var next := Step(s, idx, ok(idx), now);
      AttachLoopPrefix(next, candidates[1..], ok, now);
      var rest := AttachLoop(next, candidates[1..], ok, now);
      assert r.probed == [Probed(idx, ok(idx))] + rest.probed;
      assert Indexes(r.probed) == [idx] + Indexes(rest.probed);
    }
  }

  /** One turn of the attach loop, from position `k` of the candidates. */
  lemma AttachLoopTurn(s: SlotState, candidates: seq<int>, k: nat, ok: int -> bool, now: real, done: seq<Probed>)
    requires k < |candidates| && s.placeholders != []
    ensures var rest := AttachLoop(s, candidates[k..], ok, now);
            var after := AttachLoop(Step(s, candidates[k], ok(candidates[k]), now), candidates[k + 1..], ok, now);
            AttachResult(rest.state, done + rest.probed)
            == AttachResult(after.state, (done + [Probed(candidates[k], ok(candidates[k]))]) + after.probed)
  {
    assert candidates[k..][1..] == candidates[k + 1..];
  }

  /**
   * After the attach loop a failed probe's index carries the stamp `now`, and a
   * successful one is active with no failure record.
   */
  lemma {:induction false} AttachLoopStamps(s: SlotState, candidates: seq<int>, ok: int -> bool, now: real, idx: int)
    requires idx in Indexes(AttachLoop(s, candidates, ok, now).probed)
    ensures var r := AttachLoop(s, candidates, ok, now).state;
            if ok(idx) then idx in r.active && idx !in r.failed else idx in r.failed && r.failed[idx] == now
    decreases |candidates|
  {
    var r := AttachLoop(s, candidates, ok, now);
    var c := candidates[0];
    var next := Step(s, c, ok(c), now);
    var rest := AttachLoop(next, candidates[1..], ok, now);
    assert Indexes(r.probed) == [c] + Indexes(rest.probed);
    if idx in Indexes(rest.probed) {
      AttachLoopStamps(next, candidates[1..], ok, now, idx);
    } else {
      AttachLoopKeepsOutcome(next, candidates[1..], ok, now, idx);
    }
  }

  /** An index the rest of the loop does not probe keeps its outcome. */
  lemma {:induction false} AttachLoopKeepsOutcome(s: SlotState, candidates: seq<int>, ok: int -> bool, now: real, idx: int)
    requires idx !in Indexes(AttachLoop(s, candidates, ok, now).probed)
    ensures var r := AttachLoop(s, candidates, ok, now).state;
            (idx in s.active ==> idx in r.active)
            && (idx in s.failed <==> idx in r.failed)
            && (idx in s.failed ==> r.failed[idx] == s.failed[idx])
    decreases |candidates|
  {
    if candidates != [] && s.placeholders != [] {
      var r := AttachLoop(s, candidates, ok, now);
      var c := candidates[0];
      var next := Step(s, c, ok(c), now);
      var rest := AttachLoop(next, candidates[1..], ok, now);
      assert Indexes(r.probed) == [c] + Indexes(rest.probed);
      AttachLoopKeepsOutcome(next, candidates[1..], ok, now, idx);
    }
  }

  /** The probe the rescan uses: `test_single_camera(idx, retries=2, allow_kill=False)`. */
  predicate RescanProbeOk(opens: nat -> bool)
  {
    Discovery.ProbeSucceeds(2, false, 2, opens, false)
  }

  /** One `rescan_and_attach` tick on the slot state. */
  function Rescan(s: SlotState, indexes: seq<int>, now: real, opens: int -> (nat -> bool)): AttachResult
  {
    if s.placeholders == [] then AttachResult(s, [])
    else AttachLoop(s, Candidates(indexes, s.active, s.failed, now), i => RescanProbeOk(opens(i)), now)
  }

  /**
   * A rescan does nothing without placeholders; it never probes an active index
   * or one in its cooldown; it keeps the layout, so capturing tiles and
   * placeholders always add up to the slot count.
   */
  lemma RescanSpec(s: SlotState, slotCount: nat, indexes: seq<int>, now: real, opens: int -> (nat -> bool))
    requires Layout(s, slotCount)
    ensures s.placeholders == [] ==> Rescan(s, indexes, now, opens) == AttachResult(s, [])
    ensures Layout(Rescan(s, indexes, now, opens).state, slotCount)
    ensures |Rescan(s, indexes, now, opens).state.cameras| + |Rescan(s, indexes, now, opens).state.placeholders| == slotCount
    ensures forall p :: p in Rescan(s, indexes, now, opens).probed ==>
              p.index in indexes && Eligible(p.index, s.active, s.failed, now)
  {
    if s.placeholders != [] {
      var candidates := Candidates(indexes, s.active, s.failed, now);
      var ok := i => RescanProbeOk(opens(i));
      AttachLoopLayout(s, slotCount, candidates, ok, now);
      AttachLoopPrefix(s, candidates, ok, now);
      var r := AttachLoop(s, candidates, ok, now);
      forall p | p in r.probed
        ensures p.index in indexes && Eligible(p.index, s.active, s.failed, now)
      {
        var i :| 0 <= i < |r.probed| && r.probed[i] == p;
        assert Indexes(r.probed)[i] == p.index == candidates[i];
        CandidatesMembers(indexes, s.active, s.failed, now, p.index);
      }
    }
  }

  // ---------------------------------------------------------------- the slot manager

  /** The slot bookkeeping as `main` keeps it, in lists, a set and a dict. */
  class SlotManager {
    const slotCount: nat
    var cameras: seq<int>
    var placeholders: seq<nat>
    var active: set<int>
    var failed: map<int, real>

    function State(): SlotState
      reads this
    {
      SlotState(cameras, placeholders, active, failed)
    }

    ghost predicate Valid()
      reads this
    {
      Layout(State(), slotCount)
    }

    /**
     * The slot set-up of `main`: `range(CAMERA_SLOT_COUNT)` slots, the working
     * cameras first; then the index bookkeeping from the working list and the
     * indexes listed at that moment (`known`).
     */
    constructor (slotCount: nat, working: seq<int>, known: set<int>, now: real)
      ensures Valid() && this.slotCount == slotCount
      ensures State() == Startup(slotCount, working, known, now)
    {
      this.slotCount := slotCount;
      var shown: seq<int> := [];
      var free: seq<nat> := [];
      for slot := 0 to slotCount
        invariant |shown| == (if slot <= |working| then slot else |working|)
        invariant shown == working[..|shown|]
        invariant free == seq(slot - |shown|, i => |shown| + i)
      {
        if slot < |working| {
          shown := shown + [working[slot]];
        } else {
          free := free + [slot];
        }
      }
      cameras := shown;
      placeholders := free;
      active := set i | i in working;
      failed := map i | i in known && i !in working :: now;
      StartupLayout(slotCount, working, known, now);
    }

    /**
     * One turn of the attach loop: a camera that passed takes the first
     * placeholder's slot (`placeholder_slots.pop(0)` moves to the end of
     * `camera_widgets`) and loses any failure record; one that failed is stamped.
     */
    method ApplyProbe(idx: int, success: bool, now: real)
      requires Valid() && placeholders != []
      modifies this
      ensures Valid()
      ensures State() == Step(old(State()), idx, success, now)
    {
      ghost var before := State();
      if success {
        placeholders := placeholders[1..];
        cameras := cameras + [idx];
        active := active + {idx};
        failed := failed - {idx};
      } else {
        failed := failed[idx := now];
      }
      StepLayout(before, slotCount, idx, success, now);
    }

    /** The probe of one rescan candidate: `test_single_camera` with two attempts and no force-release. */
    static method ProbeForRescan(idx: int, opens: int -> (nat -> bool)) returns (success: bool)
      ensures success == RescanProbeOk(opens(idx))
    {
      var p := Discovery.TestSingleCamera(idx, 2, false, 2, opens(idx), false);
      success := p.found.Some?;
    }

    /**
     * `rescan_and_attach` given the indexes listed now, the clock and the open
     * outcomes of each index's probe: the slot state becomes the one `Rescan`
     * describes, and the probes made are returned in order.
     */
    method RescanAndAttach(indexes: seq<int>, now: real, opens: int -> (nat -> bool)) returns (probed: seq<Probed>)
      requires Valid()
      modifies this
      ensures Valid()
      ensures AttachResult(State(), probed) == Rescan(old(State()), indexes, now, opens)
    {
      probed := [];
      if placeholders == [] {
        return;
      }
      var candidates := SelectCandidates(indexes, active, failed, now);
      ghost var ok := i => RescanProbeOk(opens(i));
      ghost var start := State();
      var k := 0;
      // `for idx in candidates`, leaving the loop once no placeholder is left
      while k < |candidates| && placeholders != []
        invariant 0 <= k <= |candidates|
        invariant Valid()
        invariant AttachLoop(start, candidates, ok, now)
               == var rest := AttachLoop(State(), candidates[k..], ok, now);
                  AttachResult(rest.state, probed + rest.probed)
      {
        var idx := candidates[k];
        var success := ProbeForRescan(idx, opens);
        AttachLoopTurn(State(), candidates, k, ok, now, probed);
        ApplyProbe(idx, success, now);
        probed := probed + [Probed(idx, success)];
        k := k + 1;
      }
    }
  }
}
