/** The per-detection part of `PlanktonPipeline.process_frame`
    (pipeline.py): after the tracker has labelled this frame's detections,
    each one goes through the binary motion gate, the gated window
    velocity with its remembered heading, the head-alignment test and the
    movement-state machine.  The remembered headings are the
    `last_velocity_angle` table. */
module Pipeline {
  import opened Common
  import opened Config
  import opened Motion
  import Tracker
  import MS = MovementState

  /** One detection as the per-detection loop sees it: its centroid, the
      pose head_tail_from_bbox gave for it, and `alignedWith(a)`, which
      stands for `dot(axis_vec, (cos a, sin a)) >= 0` with that
      detection's body axis and a heading `a` in degrees. */
  datatype Detection = Detection(centroid: Point, pose: Pose, alignedWith: real -> bool)

  /** The fields `process_frame` writes onto one detection. */
  datatype Output = Output(id: nat, speedSq: Option<real>, angle: Option<real>, pose: Pose,
                           headAligned: bool, state: Option<MS.State>)

  /** The gated (speed, heading) of one detection. */
  datatype Reading = Reading(speedSq: Option<real>, angle: Option<real>)

  /** The per-id tables the loop updates: `last_velocity_angle` and the
      movement-state tracker's `_above_thresh_count`. */
  datatype Tables = Tables(angles: map<nat, real>, counts: map<nat, nat>)

  /** `last_velocity_angle.get(oid, None)`. */
  function Stored(angles: map<nat, real>, id: nat): Option<real>
  {
    if id in angles then Some(angles[id]) else None
  }

  /** The centroids handed to the tracker, in detection order. */
  function Centroids(dets: seq<Detection>): (cs: seq<Point>)
    ensures |cs| == |dets|
    ensures forall i :: 0 <= i < |dets| ==> cs[i] == dets[i].centroid
  {
    seq(|dets|, i requires 0 <= i < |dets| => dets[i].centroid)
  }

  /** The motion gate and the gated velocity of one track, with the heading
      table after it.  The heading reported is always the one the table
      now remembers for the id; the table changes only at `id`, and only on
      a frame the gate lets through whose window velocity has a heading.
      A gated-off frame reads speed 0. */
  function Gate(track: Tracker.Track, id: nat, angles: map<nat, real>, cfg: Settings, heading: (int, int) -> real)
    : (res: (Reading, map<nat, real>))
    requires cfg.Valid()
    ensures var moving := BinaryMotionDetect(Some(track.recentDeltas), cfg);
            var v := WindowedVelocity(Some(track.history), cfg, heading);
            && res.0.speedSq == (if moving then v.speedSq else Some(0.0))
            && res.0.angle == Stored(res.1, id)
            && angles.Keys <= res.1.Keys <= angles.Keys + {id}
            && (forall k :: k != id ==> Stored(res.1, k) == Stored(angles, k))
            && (Stored(res.1, id) != Stored(angles, id) ==> moving && v.angle == Stored(res.1, id))
            && (moving && v.angle.Some? ==> res.1 == angles[id := v.angle.value] && res.0.angle == v.angle)
            && (!(moving && v.angle.Some?) ==> res.1 == angles)
  {
    var moving := BinaryMotionDetect(Some(track.recentDeltas), cfg);
    if !moving then (Reading(Some(0.0), Stored(angles, id)), angles)
    else
      var v := WindowedVelocity(Some(track.history), cfg, heading);
      if v.angle.Some? then (Reading(v.speedSq, v.angle), angles[id := v.angle.value])
      else (Reading(v.speedSq, Stored(angles, id)), angles)
  }

  /** `head_aligned`: true unless the body is ELONGATED and a heading is
      known, in which case it is the axis test against that heading. */
  function HeadAligned(pose: Pose, angle: Option<real>, alignedWith: real -> bool): (aligned: bool)
    ensures !aligned ==> pose == Elongated && angle.Some?
    ensures pose == Elongated && angle.Some? ==> (aligned <==> alignedWith(angle.value))
  {
    match pose
    case Ball => true
    case Elongated => if angle.Some? then alignedWith(angle.value) else true
  }

  /** The loop body for one detection labelled `id` whose track is `track`. */
  function ProcessOne(t: Tables, track: Tracker.Track, id: nat, det: Detection, cfg: Settings, heading: (int, int) -> real)
    : (res: (Tables, Output))
    requires cfg.Valid()
    ensures res.1.id == id && res.1.pose == det.pose
    ensures res.1.state.None? <==> res.1.speedSq.None?
    ensures res.1.speedSq.None? <==>
              BinaryMotionDetect(Some(track.recentDeltas), cfg) && |track.history| < cfg.velocityWindowFrames + 1
    ensures res.1.state.None? ==> res.0.counts == t.counts
    ensures res.1.angle == Stored(res.0.angles, id)
    ensures t.angles.Keys <= res.0.angles.Keys <= t.angles.Keys + {id}
    ensures res.0.counts.Keys <= t.counts.Keys + {id}
    ensures var moving := BinaryMotionDetect(Some(track.recentDeltas), cfg);
            var v := WindowedVelocity(Some(track.history), cfg, heading);
            && (moving && v.angle.Some? ==> res.0.angles == t.angles[id := v.angle.value] && res.1.angle == v.angle)
            && (!(moving && v.angle.Some?) ==> res.0.angles == t.angles)
    ensures res.1.speedSq == (if BinaryMotionDetect(Some(track.recentDeltas), cfg)
                              then WindowedVelocity(Some(track.history), cfg, heading).speedSq
                              else Some(0.0))
    ensures res.1.headAligned == HeadAligned(det.pose, res.1.angle, det.alignedWith)
    ensures (res.0.counts, res.1.state) == MS.Step(t.counts, id, res.1.speedSq, det.pose, res.1.headAligned, cfg)
  {
    var g := Gate(track, id, t.angles, cfg, heading);
    var aligned := HeadAligned(det.pose, g.0.angle, det.alignedWith);
    var s := MS.Step(t.counts, id, g.0.speedSq, det.pose, aligned, cfg);
    (Tables(g.1, s.0), Output(id, g.0.speedSq, g.0.angle, det.pose, aligned, s.1))
  }

  /** One detection changes neither the remembered heading nor the streak
      of any other id. */
  lemma ProcessOneLeavesOthers(t: Tables, track: Tracker.Track, id: nat, det: Detection, cfg: Settings,
                               heading: (int, int) -> real, k: nat)
    requires cfg.Valid() && k != id
    ensures var res := ProcessOne(t, track, id, det, cfg, heading);
            Stored(res.0.angles, k) == Stored(t.angles, k) && MS.Count(res.0.counts, k) == MS.Count(t.counts, k)
  {
  }

  /** The whole per-detection loop over the tracker's ids, in order. */
  function Process(t: Tables, objects: map<nat, Tracker.Track>, ids: seq<nat>, dets: seq<Detection>,
                   cfg: Settings, heading: (int, int) -> real): (res: (Tables, seq<Output>))
    requires cfg.Valid() && |ids| == |dets|
    requires forall i :: 0 <= i < |ids| ==> ids[i] in objects
    ensures |res.1| == |ids|
    ensures forall i :: 0 <= i < |ids| ==> res.1[i].id == ids[i] && res.1[i].pose == dets[i].pose
    ensures forall i :: 0 <= i < |ids| ==> (res.1[i].state.None? <==> res.1[i].speedSq.None?)
    ensures t.angles.Keys <= res.0.angles.Keys
    decreases |ids|
  {
    if ids == [] then (t, [])
    else
      var n := |ids| - 1;
      assert forall j :: 0 <= j < n ==> ids[..n][j] == ids[j] && dets[..n][j] == dets[j];
      var prev := Process(t, objects, ids[..n], dets[..n], cfg, heading);
      var one := ProcessOne(prev.0, objects[ids[n]], ids[n], dets[n], cfg, heading);
      (one.0, prev.1 + [one.1])
  }

  /** Ids the frame does not mention keep their remembered heading and
      their streak. */
  lemma {:induction false} ProcessLeavesOthers(t: Tables, objects: map<nat, Tracker.Track>, ids: seq<nat>,
                                              dets: seq<Detection>, cfg: Settings, heading: (int, int) -> real, k: nat)
    requires cfg.Valid() && |ids| == |dets|
    requires forall i :: 0 <= i < |ids| ==> ids[i] in objects
    requires k !in ids
    ensures var res := Process(t, objects, ids, dets, cfg, heading);
            Stored(res.0.angles, k) == Stored(t.angles, k) && MS.Count(res.0.counts, k) == MS.Count(t.counts, k)
  {
    if ids != [] {
      var n := |ids| - 1;
      assert forall j :: 0 <= j < n ==> ids[..n][j] == ids[j];
      ProcessLeavesOthers(t, objects, ids[..n], dets[..n], cfg, heading, k);
      var prev := Process(t, objects, ids[..n], dets[..n], cfg, heading);
      ProcessOneLeavesOthers(prev.0, objects[ids[n]], ids[n], dets[n], cfg, heading, k);
    }
  }

  /** With distinct ids, as the tracker hands out, after the loop the table
      remembers for every detection exactly the heading reported for it. */
  lemma {:induction false} ProcessReportsStored(t: Tables, objects: map<nat, Tracker.Track>, ids: seq<nat>,
                                               dets: seq<Detection>, cfg: Settings, heading: (int, int) -> real)
    requires cfg.Valid() && |ids| == |dets| && Tracker.Distinct(ids)
    requires forall i :: 0 <= i < |ids| ==> ids[i] in objects
    ensures var res := Process(t, objects, ids, dets, cfg, heading);
            forall i :: 0 <= i < |ids| ==> res.1[i].angle == Stored(res.0.angles, ids[i])
  {
    if ids != [] {
      var n := |ids| - 1;
      var init := ids[..n];
      assert forall j :: 0 <= j < n ==> init[j] == ids[j];
      ProcessReportsStored(t, objects, init, dets[..n], cfg, heading);
      var prev := Process(t, objects, init, dets[..n], cfg, heading);
      var res := Process(t, objects, ids, dets, cfg, heading);
      forall i | 0 <= i < n
        ensures res.1[i].angle == Stored(res.0.angles, ids[i])
      {
        assert ids[i] != ids[n];
        assert res.1[i] == prev.1[i];
        ProcessOneLeavesOthers(prev.0, objects[ids[n]], ids[n], dets[n], cfg, heading, ids[i]);
      }
    }
  }

  /** A gated-off frame always feeds speed 0, so with a threshold that
      speed 0 does not reach (any MIN_MOVEMENT_SPEED_PX_S other than 0) and
      K >= 1 it resets the streak, reads ATTACHED and leaves the heading
      table alone. */
  lemma GatedOffResets(t: Tables, track: Tracker.Track, id: nat, det: Detection, cfg: Settings, heading: (int, int) -> real)
    requires cfg.Valid() && !MS.Fast(0.0, cfg) && cfg.kConsecutiveFrames >= 1
    requires !BinaryMotionDetect(Some(track.recentDeltas), cfg)
    ensures var res := ProcessOne(t, track, id, det, cfg, heading);
            && res.1.speedSq == Some(0.0)
            && res.0.counts[id] == 0
            && res.1.state == Some(MS.Attached)
            && res.0.angles == t.angles
            && res.1.angle == Stored(t.angles, id)
  {
  }

  /** A track the tracker keeps has at most DETECT_WINDOW_FRAMES recent
      displacements, so the gate, which counts every entry it is given,
      opens exactly when the buffer is full and at least DETECT_MIN_COUNT
      of those latest DETECT_WINDOW_FRAMES displacements reach
      MIN_FRAME_DISPLACEMENT_PX. */
  lemma GateSeesExactlyWindow(track: Tracker.Track, cfg: Settings)
    requires cfg.Valid() && Tracker.TrackOk(track, cfg)
    ensures var d := track.recentDeltas;
            BinaryMotionDetect(Some(d), cfg) <==>
              && |d| == cfg.detectWindowFrames
              && CountAtLeast(Tracker.KeepLast(d, cfg.detectWindowFrames), cfg.minFrameDisplacementPx) >= cfg.detectMinCount
  {
    var d := track.recentDeltas;
    CountIsCardinality(d, cfg.minFrameDisplacementPx);
  }

  /** The first frame of a track the tracker has just created (no
      displacements yet) for an id no table has seen: the gate is shut, the
      speed reads 0, no heading is known, and the state is ATTACHED with a
      streak of 0 (for a threshold speed 0 does not reach, and K >= 1). */
  lemma NewTrackFirstFrame(t: Tables, track: Tracker.Track, id: nat, det: Detection, cfg: Settings, heading: (int, int) -> real)
    requires cfg.Valid() && !MS.Fast(0.0, cfg) && cfg.kConsecutiveFrames >= 1
    requires track.recentDeltas == [] && id !in t.angles
    ensures var res := ProcessOne(t, track, id, det, cfg, heading);
            && res.1.speedSq == Some(0.0)
            && res.1.angle == None
            && res.1.headAligned
            && res.1.state == Some(MS.Attached)
            && res.0.counts[id] == 0
  {
    GatedOffResets(t, track, id, det, cfg, heading);
  }

  /** If every id in the tables and every id of the frame is below `bound`,
      so is every id in the tables after the frame. */
  lemma {:induction false} KeysStayBelow(t: Tables, objects: map<nat, Tracker.Track>, ids: seq<nat>, dets: seq<Detection>,
                      cfg: Settings, heading: (int, int) -> real, bound: nat)
    requires cfg.Valid() && |ids| == |dets|
    requires forall i :: 0 <= i < |ids| ==> ids[i] in objects && ids[i] < bound
    requires forall k :: k in t.angles ==> k < bound
    requires forall k :: k in t.counts ==> k < bound
    ensures forall k :: k in Process(t, objects, ids, dets, cfg, heading).0.angles ==> k < bound
    ensures forall k :: k in Process(t, objects, ids, dets, cfg, heading).0.counts ==> k < bound
  {
    if ids != [] {
      var n := |ids| - 1;
      assert forall j :: 0 <= j < n ==> ids[..n][j] == ids[j];
      KeysStayBelow(t, objects, ids[..n], dets[..n], cfg, heading, bound);
      var prev := Process(t, objects, ids[..n], dets[..n], cfg, heading);
      var one := ProcessOne(prev.0, objects[ids[n]], ids[n], dets[n], cfg, heading);
      assert Process(t, objects, ids, dets, cfg, heading).0 == one.0;
    }
  }

  /** A sequence fact used by the loop proofs below: the prefix of length
      `i` of the prefix of length `i + 1` is the prefix of length `i`. */
  lemma PrefixStep<T>(s: seq<T>, i: nat)
    requires i < |s|
    ensures s[..i + 1][..i] == s[..i]
  {
  }

  /** `PlanktonPipeline`, restricted to the state the per-detection loop
      uses: the tracker, the movement-state tracker and
      `last_velocity_angle`. */
  class PlanktonPipeline {
    const cfg: Settings
    const tracker: Tracker.CentroidTracker
    const stateTracker: MS.MovementStateTracker
    var lastVelocityAngle: map<nat, real>

    ghost function Tabs(): Tables
      reads this, stateTracker
    {
      Tables(lastVelocityAngle, stateTracker.aboveThreshCount)
    }

    /** Both trackers run on the pipeline's settings, the tracker keeps its
        invariant, and neither table holds an id the tracker has not yet
        handed out, so a newly created track never inherits an entry. */
    ghost predicate Valid()
      reads this, tracker, stateTracker
    {
      && cfg.Valid()
      && tracker.cfg == cfg && stateTracker.cfg == cfg
      && tracker.Valid()
      && (forall k :: k in lastVelocityAngle ==> k < tracker.nextObjectId)
      && (forall k :: k in stateTracker.aboveThreshCount ==> k < tracker.nextObjectId)
    }

    /** The state `__init__` sets up: a fresh `CentroidTracker()` with the
        default eviction bound, a fresh `MovementStateTracker()` and an
        empty heading table. */
    constructor (settings: Settings)
      requires settings.Valid()
      ensures Valid() && fresh(tracker) && fresh(stateTracker)
      ensures cfg == settings && tracker.maxLost == settings.maxLostFrames
      ensures tracker.State() == Tracker.Registry(0, [], map[], map[])
      ensures Tabs() == Tables(map[], map[])
    {
      cfg := settings;
      tracker := new Tracker.CentroidTracker(None, settings);
      stateTracker := new MS.MovementStateTracker(settings);
      lastVelocityAngle := map[];
    }

    /** The loop body of `process_frame` for the detection labelled `oid`. */
    method Handle(oid: nat, det: Detection, heading: (int, int) -> real) returns (o: Output)
      requires cfg.Valid() && stateTracker.cfg == cfg && oid in tracker.objects
      modifies this, stateTracker
      ensures (Tabs(), o) == ProcessOne(old(Tabs()), tracker.objects[oid], oid, det, cfg, heading)
    {
      var track := tracker.objects[oid];
      var moving := BinaryMotionDetect(Some(track.recentDeltas), cfg);
      var speed: Option<real>;
      var angle: Option<real>;
      if !moving {
        speed := Some(0.0);
        angle := Stored(lastVelocityAngle, oid);
      } else {
        var v := WindowedVelocity(Some(track.history), cfg, heading);
        speed := v.speedSq;
        if v.angle.Some? {
          lastVelocityAngle := lastVelocityAngle[oid := v.angle.value];
          angle := v.angle;
        } else {
          angle := Stored(lastVelocityAngle, oid);
        }
      }
      var aligned := true;
      if det.pose == Elongated && angle.Some? {
        aligned := det.alignedWith(angle.value);
      }
      var state := stateTracker.Update(oid, speed, det.pose, aligned);
      o := Output(oid, speed, angle, det.pose, aligned, state);
    }

    /** The per-detection loop over the ids the tracker returned. */
    method HandleAll(ids: seq<nat>, dets: seq<Detection>, heading: (int, int) -> real) returns (out: seq<Output>)
      requires cfg.Valid() && stateTracker.cfg == cfg && |ids| == |dets|
      requires forall i :: 0 <= i < |ids| ==> ids[i] in tracker.objects
      modifies this, stateTracker
      ensures (Tabs(), out) == Process(old(Tabs()), tracker.objects, ids, dets, cfg, heading)
    {
      out := [];
      var i := 0;
      while i < |ids|
        invariant 0 <= i <= |ids|
        invariant (Tabs(), out) == Process(old(Tabs()), tracker.objects, ids[..i], dets[..i], cfg, heading)
      {
        var o := Handle(ids[i], dets[i], heading);
        out := out + [o];
        PrefixStep(ids, i);
        PrefixStep(dets, i);
        i := i + 1;
      }
      assert ids[..i] == ids;
      assert dets[..i] == dets;
    }

    /** `process_frame` from the tracker call through the per-detection
        loop: the tracker moves as its `update` says, and the tables and
        the per-detection outputs are those of `Process` over the returned
        ids, each of which names a live track. */
    method ProcessFrame(dets: seq<Detection>, heading: (int, int) -> real) returns (out: seq<Output>)
      requires Valid()
      modifies this, tracker, stateTracker
      ensures Valid()
      ensures var res := Tracker.UpdateSpec(old(tracker.State()), Centroids(dets), cfg, tracker.maxLost);
              && tracker.State() == res.0
              && |res.1| == |dets|
              && (forall i :: 0 <= i < |res.1| ==> res.1[i] in res.0.objects)
              && (Tabs(), out) == Process(old(Tabs()), res.0.objects, res.1, dets, cfg, heading)
    {
      var cs := Centroids(dets);
      var ids := tracker.Update(cs);
      ghost var tabs0 := Tabs();
      out := HandleAll(ids, dets, heading);
      KeysStayBelow(tabs0, tracker.objects, ids, dets, cfg, heading, tracker.nextObjectId);
    }
  }
}
