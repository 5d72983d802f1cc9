/** The movement-state machine (movement_state.py): a per-id count of
    consecutive frames whose window-averaged speed reached
    MIN_MOVEMENT_SPEED_PX_S, and the label decided from that count, the
    pose and the head alignment.

    The speed is carried as its square (see Motion.Velocity), so "speed
    reaches the threshold" is `speedSq >= Squared(MIN_MOVEMENT_SPEED_PX_S)`,
    which for non-negative speeds is the same comparison. */
module MovementState {
  import opened Common
  import opened Config

  datatype State = Attached | SwimForward | SwimBackward

  /** The count stored for `id`; an id without an entry counts as 0. */
  function Count(counts: map<nat, nat>, id: nat): nat
  {
    if id in counts then counts[id] else 0
  }

  /** Whether a (squared) speed reaches the movement threshold. */
  predicate Fast(speedSq: real, cfg: Settings)
  {
    speedSq >= Squared(cfg.minMovementSpeedPxS)
  }

  /** The counter table after one available speed for `id`: that id's count
      grows by one on a fast frame and drops to 0 otherwise; no other entry
      changes. */
  function Counted(counts: map<nat, nat>, id: nat, speedSq: real, cfg: Settings): (c: map<nat, nat>)
    ensures id in c && c.Keys == counts.Keys + {id}
    ensures Fast(speedSq, cfg) ==> c[id] == Count(counts, id) + 1
    ensures !Fast(speedSq, cfg) ==> c[id] == 0
    ensures forall o :: o in counts && o != id ==> c[o] == counts[o]
  {
    counts[id := if Fast(speedSq, cfg) then Count(counts, id) + 1 else 0]
  }

  /** The decision chain after the counter update: ATTACHED while the streak
      is short of K; then SWIM_FORWARD for a BALL; for an elongated body
      forward when the head is aligned with the motion, backward otherwise. */
  function Decide(count: nat, pose: Pose, headAlignedForward: bool, cfg: Settings): (s: State)
    ensures s == Attached <==> count < cfg.kConsecutiveFrames
    ensures s == SwimBackward <==> count >= cfg.kConsecutiveFrames && pose == Elongated && !headAlignedForward
  {
    if count < cfg.kConsecutiveFrames then Attached
    else match pose
      case Ball => SwimForward
      case Elongated => if headAlignedForward then SwimForward else SwimBackward
  }

  /** `update(object_id, speed, pose, head_aligned_forward)` on the counter
      table: the new table and the label, `None` when no speed is
      available (and then the table is left exactly as it was). */
  function Step(counts: map<nat, nat>, id: nat, speedSq: Option<real>, pose: Pose, headAlignedForward: bool, cfg: Settings)
    : (res: (map<nat, nat>, Option<State>))
    ensures speedSq.None? ==> res == (counts, None)
    ensures speedSq.Some? ==> res.1.Some? && id in res.0 && res.1.value == Decide(res.0[id], pose, headAlignedForward, cfg)
    ensures speedSq.Some? ==> res.0 == Counted(counts, id, speedSq.value, cfg)
  {
    match speedSq
    case None => (counts, None)
    case Some(v) =>
      var c := Counted(counts, id, v, cfg);
      (c, Some(Decide(c[id], pose, headAlignedForward, cfg)))
  }

  /** The counter table after a sequence of available speeds for one id. */
  function Feed(counts: map<nat, nat>, id: nat, speeds: seq<real>, cfg: Settings): map<nat, nat>
  {
    if speeds == [] then counts
    else Counted(Feed(counts, id, speeds[..|speeds| - 1], cfg), id, speeds[|speeds| - 1], cfg)
  }

  /** A run of fast frames adds its length to the streak and touches no
      other id. */
  lemma {:induction false} FastRun(counts: map<nat, nat>, id: nat, speeds: seq<real>, cfg: Settings)
    requires forall i :: 0 <= i < |speeds| ==> Fast(speeds[i], cfg)
    ensures Count(Feed(counts, id, speeds, cfg), id) == Count(counts, id) + |speeds|
    ensures forall o :: o != id ==> Count(Feed(counts, id, speeds, cfg), o) == Count(counts, o)
  {
    if speeds != [] {
      var init := speeds[..|speeds| - 1];
      assert forall i :: 0 <= i < |init| ==> init[i] == speeds[i];
      FastRun(counts, id, init, cfg);
    }
  }

  /** Anti-flicker: starting from a streak of 0 (an unseen id, or one just
      reset), the first K-1 fast frames read ATTACHED and the K-th reads a
      swimming state. */
  lemma StreakReachesK(counts: map<nat, nat>, id: nat, speeds: seq<real>, pose: Pose, aligned: bool, cfg: Settings)
    requires Count(counts, id) == 0 && |speeds| >= 1
    requires forall i :: 0 <= i < |speeds| ==> Fast(speeds[i], cfg)
    ensures var before := Feed(counts, id, speeds[..|speeds| - 1], cfg);
            var s := Step(before, id, Some(speeds[|speeds| - 1]), pose, aligned, cfg).1.value;
            (s == Attached <==> |speeds| < cfg.kConsecutiveFrames)
  {
    var init := speeds[..|speeds| - 1];
    assert forall i :: 0 <= i < |init| ==> init[i] == speeds[i];
    FastRun(counts, id, init, cfg);
  }

  /** One slow frame resets the streak, so the label reads ATTACHED (for any
      K >= 1) whatever the streak was before. */
  lemma SlowFrameResets(counts: map<nat, nat>, id: nat, speedSq: real, pose: Pose, aligned: bool, cfg: Settings)
    requires !Fast(speedSq, cfg) && cfg.kConsecutiveFrames >= 1
    ensures var res := Step(counts, id, Some(speedSq), pose, aligned, cfg);
            res.0[id] == 0 && res.1 == Some(Attached)
  {
  }

  /** With K_CONSECUTIVE_FRAMES = 3 and MIN_MOVEMENT_SPEED_PX_S = 8.0, one
      id seen at speeds 10, 10, 10, 5, 10: three frames at speed 10 read ATTACHED,
      ATTACHED, then swimming; a frame at speed 5 resets to ATTACHED, and
      the next fast frame still reads ATTACHED. */
  lemma ThreeFastOneSlow(pose: Pose, aligned: bool)
    ensures var cfg := Default;
            var r1 := Step(map[], 7, Some(100.0), pose, aligned, cfg);
            var r2 := Step(r1.0, 7, Some(100.0), pose, aligned, cfg);
            var r3 := Step(r2.0, 7, Some(100.0), pose, aligned, cfg);
            var r4 := Step(r3.0, 7, Some(25.0), pose, aligned, cfg);
            var r5 := Step(r4.0, 7, Some(100.0), pose, aligned, cfg);
            && r1.1 == Some(Attached) && r2.1 == Some(Attached)
            && r3.1.Some? && r3.1.value != Attached
            && r4.1 == Some(Attached) && r5.1 == Some(Attached)
  {
    assert Squared(Default.minMovementSpeedPxS) == 64.0;
  }

  /** `MovementStateTracker`: the `_above_thresh_count` table. */
  class MovementStateTracker {
    var aboveThreshCount: map<nat, nat>
    const cfg: Settings

    constructor (settings: Settings)
      ensures aboveThreshCount == map[] && cfg == settings
    {
      aboveThreshCount := map[];
      cfg := settings;
    }

    /** `update`: the label for this frame; the table changes as Step says
        (not at all when the speed is unavailable, otherwise only the entry
        of `objectId`). */
    method Update(objectId: nat, speedSq: Option<real>, pose: Pose, headAlignedForward: bool) returns (state: Option<State>)
      modifies this
      ensures (aboveThreshCount, state) == Step(old(aboveThreshCount), objectId, speedSq, pose, headAlignedForward, cfg)
    {
      if speedSq.None? {
        return None;
      }
      if objectId !in aboveThreshCount {
        aboveThreshCount := aboveThreshCount[objectId := 0];
      }
      if speedSq.value >= Squared(cfg.minMovementSpeedPxS) {
        aboveThreshCount := aboveThreshCount[objectId := aboveThreshCount[objectId] + 1];
      } else {
        aboveThreshCount := aboveThreshCount[objectId := 0];
      }
      assert aboveThreshCount == Counted(old(aboveThreshCount), objectId, speedSq.value, cfg);
      if aboveThreshCount[objectId] < cfg.kConsecutiveFrames {
        return Some(Attached);
      }
      if pose == Ball {
        return Some(SwimForward);
      }
      if headAlignedForward {
        return Some(SwimForward);
      } else {
        return Some(SwimBackward);
      }
    }
  }
}
