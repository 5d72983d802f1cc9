# Plankton tracker: identity, motion and behaviour layer in Dafny

This project models the temporal layer of the plankton tracking pipeline.
That is the part that turns per-frame detections into persistent tracks and
then into a movement label:

- **Tracker** (`tracker.py`): the `CentroidTracker`.
  - Each detection's centroid is matched greedily, in input order, to the
    nearest unclaimed track strictly within `MAX_TRACK_DIST`. The scan runs
    in dict order, and ties go to the earlier (lower) id.
  - A detection with no match opens a new track with the next id. Ids are
    never reused.
  - Each track keeps a `history` capped at `MAX_HISTORY` and `recent_deltas`
    capped at `DETECT_WINDOW_FRAMES`.
  - An unmatched track has its lost count raised by one. It is evicted once
    that count exceeds `max_lost`.
  - Imperative: a class whose fields are the two dicts, their key order and
    the id counter. `Update` is proved against the functional specification
    `UpdateSpec`, and the lemmas state what that specification guarantees.
- **Motion** (`features_motion.py`): the binary motion gate over recent
  displacements and the window-averaged velocity over the centroid history.
  Both are pure functions.
- **MovementState** (`movement_state.py`): the per-id streak counter with
  K-consecutive-frame hysteresis and the three-way label. It is a class over
  the counter table, specified by the function `Step`.
- **Kinematics** (`kinematics.py`): the decision logic of
  `head_tail_from_bbox`. That covers the aspect-ratio pose test, the
  long/short normalisation, the choice of the two short edges,
  `integrate_cap` (a method with nested loops, proved against `CapMass`) and
  the head/tail rule, where ties favour cap 0.
- **Pipeline** (`pipeline.py`): the per-detection loop of `process_frame`
  after the tracker call.
  - It covers the motion gate, the gated velocity and the
    `last_velocity_angle` table that remembers the last known heading.
  - `head_aligned` defaults to true.
  - The movement-state update comes last, and a `None` speed becomes a
    `None` state.
  - Imperative: a class owning the two trackers and the heading table.
- **MaskUtils** (`mask_utils.py`): the circular region-of-interest filter on
  a `uint8` mask.
- **Config** (`config.py`) is a `Settings` value passed to every operation,
  with `Default` holding the shipped constants.

**Distances.**
- Centroids are integer pixels, so every distance threshold is compared on
  the squared integer distance (`Common.Dist2`). For non-negative values
  this orders exactly as the Euclidean distance does.
- `recent_deltas` hold squared displacements.
- The window speed is carried as its square (`speedSq`), and the movement
  threshold is compared against the squared threshold.

**Gate window.** `binary_motion_detect` counts every entry of the list it is
given, not only the latest `DETECT_WINDOW_FRAMES`, and the model does the
same. `Pipeline.GateSeesExactlyWindow` shows that for every track the tracker
keeps the two agree, because the tracker caps `recent_deltas` at
`DETECT_WINDOW_FRAMES` entries.

## Model

| member | source | states |
|---|---|---|
| Common.Dist2 | tracker.py:35-37 | The distance measure is zero exactly when the two points coincide; it is the squared Euclidean distance used for every threshold. |
| Tracker.KeepLast | tracker.py:85-91 | Python's `s[-n:]`: a suffix of `s` of length `min(n, len(s))` for `n >= 1`, and all of `s` for `n == 0`. |
| Tracker.Filter | tracker.py:122-123 | Deleting keys from a dict keeps the others in their order: the result holds exactly the kept elements and stays increasing. |
| Tracker.Scan | tracker.py:64-74 | The inner scan's result is an unclaimed key strictly closer than the limit, or none with the limit itself as best distance. |
| Tracker.ScanFindsNearest | tracker.py:64-74 | No unclaimed track is closer than the scan's result, and every unclaimed track before it in the scan is strictly farther (strict `<`). |
| Tracker.ScanPicksLowestNearest | tracker.py:64-74 | Over the dict order, the match is an unclaimed track at minimum distance strictly within MAX_TRACK_DIST, the lowest id among equally near ones; no match means no unclaimed track is within range. |
| Tracker.AssignOne | tracker.py:61-111 | One iteration of the detection loop keeps the registry's key shape (same keys in both dicts, increasing order, ids below the counter). |
| Tracker.AssignAll | tracker.py:61-111 | The detection loop keeps the registry's key shape. |
| Tracker.MatchedOk | tracker.py:80-91 | A matched track keeps both buffer caps, its centroid becomes the detection, and its newest delta is the distance from the previous centroid. |
| Tracker.MatchKeepsInv | tracker.py:76-95 | Claiming a live track (new buffers, lost 0) keeps the tracker invariant. |
| Tracker.NewKeepsInv | tracker.py:97-109 | Opening track `next_object_id` with history `[c]`, no deltas and lost 0 keeps the tracker invariant. |
| Tracker.MatchKeepsFrame | tracker.py:76-95 | A match keeps the in-frame invariant: `used_ids` is the set of ids handed out, no id twice, each live with lost 0. |
| Tracker.NewKeepsFrame | tracker.py:97-109 | Opening a track keeps the in-frame invariant. |
| Tracker.AssignOneKeepsFrame | tracker.py:61-111 | One detection keeps the in-frame invariant and receives an id not yet used this frame, appended to the output. |
| Tracker.AssignOneChoice | tracker.py:64-109 | Each detection either joins the nearest unclaimed in-range track (buffers updated, lost 0, counter unchanged) or, when none is in range, opens track `next_object_id` with history `[c]` and no deltas, and the counter grows by exactly one. |
| Tracker.AssignAllKeepsFrame | tracker.py:61-111 | The detection loop gives every detection exactly one distinct id, in input order, and keeps the invariant. |
| Tracker.AssignAllHistory | tracker.py:61-111 | The detection loop never lowers the counter, drops no track, creates only ids at or above the old counter, and leaves unclaimed tracks untouched. |
| Tracker.AgeOne | tracker.py:119-123 | One lost-track iteration touches only the one id and never adds keys. |
| Tracker.AgeKeys | tracker.py:116-123 | The lost-track loop over a key snapshot never adds keys and leaves ids outside the snapshot untouched. |
| Tracker.AgeKeysIsAgedOn | tracker.py:116-123 | The lost-track loop equals ageing every snapshot key at once (the per-key statement). |
| Tracker.AgedAll | tracker.py:116-123 | Ageing: an id survives exactly when it was seen this frame or its raised lost count stays within `max_lost`; survivors keep their track; unseen ones gain one lost frame. |
| Tracker.UpdateSpec | tracker.py:39-125 | `update` returns one id per detection, never lowers the counter, and leaves `objects` and `lost` with the same keys; its other guarantees are the lemmas below. |
| Tracker.UpdateKeepsInv | tracker.py:39-125 | `update` keeps the invariant (same keys in `objects` and `lost`, ids below the counter, buffer caps, newest centroid last in history, lost counts within `max_lost`) and returns one distinct id per detection, each live with lost 0. |
| Tracker.UpdateNeverReusesIds | tracker.py:98-109 | The counter never decreases, and every id live or returned after `update` was live before or is at least the old counter: an evicted id never comes back. |
| Tracker.UpdateAgesUnmatched | tracker.py:116-123 | A track no detection claimed survives exactly when its lost count plus one is within `max_lost`, and then keeps its contents with lost raised by one. |
| Tracker.EmptyUpdateAges | tracker.py:61-123 | An empty detection list hands out no id and only ages and evicts. |
| Tracker.Quiet | tracker.py:116-123 | An empty frame keeps the counter and only removes keys. |
| Tracker.QuietAges | tracker.py:116-123 | In an empty frame a track survives exactly when its raised lost count is within `max_lost`, keeping its contents with lost plus one. |
| Tracker.Idle | tracker.py:116-123 | `k` empty frames only remove keys. |
| Tracker.IdleKeyed | tracker.py:116-123 | `k` empty frames keep the registry's key shape. |
| Tracker.GracePeriod | tracker.py:116-123 | Over `k` empty frames a track survives exactly when lost plus `k` is within `max_lost`, with unchanged contents and lost grown by `k`, so it survives exactly `max_lost` misses. |
| Tracker.SurvivesGrace | tracker.py:116-123 | A track seen last frame (lost 0) is still live, unchanged, with lost `max_lost`, after `max_lost` empty frames; no track appears, so an only live track stays the only one. |
| Tracker.RematchSameCentroid | tracker.py:64-93 | A detection exactly on the only live track's centroid re-matches that id, resets lost to 0 and records a displacement of 0. |
| Tracker.CentroidTracker.constructor | tracker.py:26-33 | No tracks, the counter at 0, and `max_lost` defaults to MAX_LOST_FRAMES. |
| Tracker.CentroidTracker.Nearest | tracker.py:64-74 | The loop computes the scan's result. |
| Tracker.CentroidTracker.Assign | tracker.py:62-110 | The loop body changes the tracker as one AssignOne step. |
| Tracker.CentroidTracker.AgeTrack | tracker.py:119-123 | The lost-track loop body changes the tracker as AgeOne. |
| Tracker.CentroidTracker.AgeLost | tracker.py:116-123 | The lost-track loop changes the tracker as AgeKeys over the key snapshot. |
| Tracker.CentroidTracker.Update | tracker.py:39-125 | `update` keeps the invariant, leaves the state UpdateSpec gives, returns one id per detection, each live and below the counter, and never lowers the counter. |
| Motion.CountAtLeast | features_motion.py:41-44 | The generator count is at most the number of entries. |
| Motion.CountIsCardinality | features_motion.py:41-44 | The count equals the number of positions whose displacement reaches the threshold. |
| Motion.BinaryMotionDetect | features_motion.py:20-46 | `None` and any list shorter than DETECT_WINDOW_FRAMES are not moving; otherwise moving iff at least DETECT_MIN_COUNT of all entries reach MIN_FRAME_DISPLACEMENT_PX. |
| Motion.CountMonotone | features_motion.py:41-44 | Entry-wise larger displacements never lower the count. |
| Motion.GateMonotone | features_motion.py:35-46 | Entry-wise larger displacements never switch the gate off. |
| Motion.JitterIsNotMotion | features_motion.py:41-46 | A list with every displacement below the threshold never opens the gate (DETECT_MIN_COUNT >= 1). |
| Motion.WindowedVelocity | features_motion.py:49-87 | Speed is unavailable exactly when the history is `None` or shorter than N+1, and then the angle is too; an available speed is non-negative. |
| Motion.VelocityUsesEndpointsOnly | features_motion.py:72-76 | Two histories with the same sample N+1 back and the same newest sample give the same result. |
| Motion.VelocityMeaning | features_motion.py:78-85 | Below MIN_DISPLACEMENT_PX the result is (0.0, None); otherwise the heading is that of the net displacement and speed^2 * N^2 == distance^2 * FPS^2, positive exactly when the endpoints differ. |
| Motion.SpeedFloor | features_motion.py:80-84 | A reported heading comes with speed at least MIN_DISPLACEMENT_PX * FPS / N. |
| MovementState.Counted | movement_state.py:56-63 | The id's streak grows by one on a fast frame, resets to 0 otherwise (a new id starts at 0); no other entry changes. |
| MovementState.Decide | movement_state.py:66-78 | ATTACHED iff the streak is below K; SWIM_BACKWARD iff the streak reached K, the pose is ELONGATED and the head is not aligned; SWIM_FORWARD otherwise (including every BALL). |
| MovementState.Step | movement_state.py:52-78 | A `None` speed returns `None` and leaves the table exactly as it was; otherwise the new table is Counted (the id's streak grows by one on a fast frame, resets to 0 otherwise, no other entry changes) and the label is Decide on the updated streak. |
| MovementState.FastRun | movement_state.py:60-61 | A run of fast frames adds its length to the streak and changes no other id. |
| MovementState.StreakReachesK | movement_state.py:60-67 | From a zero streak, the first K-1 fast frames read ATTACHED and the K-th reads a swim state. |
| MovementState.SlowFrameResets | movement_state.py:62-67 | One slow frame resets the streak to 0 and reads ATTACHED. |
| MovementState.ThreeFastOneSlow | movement_state.py:52-78 | With the shipped constants: fast, fast, fast, slow, fast read ATTACHED, ATTACHED, swim, ATTACHED, ATTACHED. |
| MovementState.MovementStateTracker.constructor | movement_state.py:26-28 | The counter table starts empty. |
| MovementState.MovementStateTracker.Update | movement_state.py:30-78 | The label and the new table are those of Step. |
| Kinematics.ClassifyPose | kinematics.py:40-45 | BALL iff abs(long/(short+1e-6) - 1) < BALL_ASPECT_EPS, stated without the division: BALL iff the long axis lies strictly within BALL_ASPECT_EPS * (short+1e-6) of short+1e-6. |
| Kinematics.PoseExamples | kinematics.py:40-45 | With BALL_ASPECT_EPS = 0.25, 10x10 is BALL and 13x10 is ELONGATED. |
| Kinematics.Normalize | kinematics.py:79-86 | The long axis is at least the short one, the two are w and h in some order, and the angle turns by 90 degrees exactly when w < h. |
| Kinematics.EdgeLengths | kinematics.py:104-112 | A definition: the squared length of each box edge, corner i to corner i+1 mod 4. Its contract states only that there are four lengths; what the lengths mean for the caps is stated by CapsAreOppositeEdges. |
| Kinematics.ArgMin | kinematics.py:114 | The first position of a minimum among the candidates. |
| Kinematics.ShortestTwo | kinematics.py:114 | Two distinct edge positions: the shortest edge and the next-shortest, ties to the lower position. |
| Kinematics.CapsAreOppositeEdges | kinematics.py:102-120 | In a non-square rectangle the two caps are the opposite short edges. |
| Kinematics.RoundHalfEven | kinematics.py:164-165 | Python `round`: the nearest integer, halves to the even neighbour. |
| Kinematics.LineMass | kinematics.py:138-144 | One cap line counts at most its number of samples. |
| Kinematics.CapMass | kinematics.py:132-146 | A cap total is at most the total number of samples. |
| Kinematics.CapMassBound | kinematics.py:132-137 | With NUM_CAP_LINES lines of int(short)+1 samples, the total is at most NUM_CAP_LINES * (int(short)+1). |
| Kinematics.CapWithinShape | kinematics.py:125-146 | Any cap sampled as integrate_cap samples (NUM_CAP_LINES lines of int(short_axis)+1 points) totals at most NUM_CAP_LINES * (int(short_axis)+1). |
| Kinematics.LineMassMonotone | kinematics.py:142-144 | More foreground never lowers a line's count. |
| Kinematics.CapMassMonotone | kinematics.py:132-146 | More foreground never lowers a cap's total. |
| Kinematics.IntegrateCap | kinematics.py:125-146 | The nested loop counts exactly the in-bounds foreground samples (CapMass). |
| Kinematics.ChooseHead | kinematics.py:155-162 | The axis is +u iff sum_a >= sum_b; with +u cap 0 is the head and cap 1 the tail, with -u (sum_a < sum_b) cap 1 is the head and cap 0 the tail; so ties make cap 0 the head, and head and tail are the two caps. |
| Kinematics.ChooseHeadSwap | kinematics.py:155-162 | For caps of different mass, swapping the two caps picks the same head and tail and flips only the axis. |
| Kinematics.HeadTailFromBbox | kinematics.py:51-167 | The pose is classify_pose of the normalised sizes; a BALL has no head or tail; an ELONGATED body's head and tail are the rounded midpoints of the two short edges, the head on the cap with at least as much foreground (ties: cap 0); with each cap sampled on NUM_CAP_LINES lines of int(short_axis)+1 points, each cap total is at most NUM_CAP_LINES * (int(short_axis)+1). |
| MaskUtils.ApplyCircularMask | mask_utils.py:17-47 | The output has the input's height and row widths. |
| MaskUtils.DisabledIsIdentity | mask_utils.py:32-33 | With ENABLE_MASK off the mask is returned unchanged. |
| MaskUtils.PixelRule | mask_utils.py:41-47 | A pixel with (x-XC)^2+(y-YC)^2 <= R^2 keeps its value (boundary included); any other becomes 0. |
| MaskUtils.NoNewForeground | mask_utils.py:47 | Every output pixel is the input pixel or 0, and a 0 pixel stays 0. |
| MaskUtils.Idempotent | mask_utils.py:41-47 | Masking twice equals masking once. |
| Pipeline.Gate | pipeline.py:120-134 | Gate off: speed 0.0. Gate on: the window speed. The reported heading is the one the table now holds for the id. The table changes only at the id. On a gated-on frame with a known window heading, the table stores that heading for the id and the reading reports it; on every other frame the table is unchanged. |
| Pipeline.HeadAligned | pipeline.py:150-156 | True unless the pose is ELONGATED and a heading is known; then it is the axis test against that heading. |
| Pipeline.ProcessOne | pipeline.py:109-168 | The output keeps the id and pose. The reported speed is 0.0 when the gate is off and the window speed when it is on. The state is `None` iff the speed is. The speed is `None` iff the gate is on and the history is shorter than N+1, and then the counters are untouched. The heading is the stored one: on a gated-on frame with a known window heading the heading table stores it for the id and the output reports it, otherwise the heading table is unchanged. The tables grow by at most this id. `head_aligned` is HeadAligned of the pose against the reported heading, and the new streak table and the state are those of MovementState.Step on the reported speed, the pose and that `head_aligned`. |
| Pipeline.ProcessOneLeavesOthers | pipeline.py:125-134 | One detection leaves every other id's heading and streak unchanged. |
| Pipeline.Process | pipeline.py:109-168 | One output per detection in order, with its id and pose, state `None` iff speed `None`; the heading table never loses keys. |
| Pipeline.ProcessLeavesOthers | pipeline.py:109-168 | Ids not in this frame keep their heading and streak. |
| Pipeline.ProcessReportsStored | pipeline.py:127-137 | With distinct ids, each detection's reported heading is the one the table holds for it after the frame. |
| Pipeline.GatedOffResets | pipeline.py:125-127 | A gated-off frame feeds speed 0.0, which resets the streak to 0 and reads ATTACHED, and leaves the heading table unchanged. |
| Pipeline.GateSeesExactlyWindow | pipeline.py:115-120 | For a tracker-kept track, the gate opens iff the delta buffer is full and at least DETECT_MIN_COUNT of its last DETECT_WINDOW_FRAMES entries reach the threshold. |
| Pipeline.NewTrackFirstFrame | pipeline.py:120-168 | A new track's first frame reads speed 0.0, no heading, head aligned, ATTACHED with streak 0. |
| Pipeline.KeysStayBelow | pipeline.py:131-132 | The tables only gain ids of the frame, so they stay below the tracker's counter. |
| Pipeline.PlanktonPipeline.constructor | pipeline.py:37-41 | A fresh tracker with the default eviction bound and no tracks, a fresh state tracker, and an empty heading table. |
| Pipeline.PlanktonPipeline.Handle | pipeline.py:110-168 | The loop body changes the tables and produces the output as ProcessOne. |
| Pipeline.PlanktonPipeline.HandleAll | pipeline.py:109-168 | The loop over the frame's ids produces Process. |
| Pipeline.PlanktonPipeline.ProcessFrame | pipeline.py:107-168 | The tracker moves as `update` specifies. Each returned id is live. The outputs and tables are Process over those ids. The pipeline invariant holds: no table holds an id the tracker has not handed out. |

## Left out

- Detection (`detector.py`), morphology features (`features_morphology.py`), batch running (`run_tracker.py`): image processing and I/O, not part of this model. A detection enters as an integer centroid plus its pose and alignment test.
- `PlanktonPipeline` video capture, `frame_idx` and time, CSV setup and rows, drawing, `imshow`/`waitKey`, `run` and `cleanup`: I/O and UI.
- Geometry from cv2 and numpy: `minAreaRect`, `boxPoints`, the unit vectors `u` and `v`, `linspace` sampling and rounding of the sample points. The box sizes, corners and the rounded sample points of each cap are inputs to `Kinematics.HeadTailFromBbox`.
- `Pipeline.Detection`: the pose and the head-alignment test (`dot(axis_vec, (cos a, sin a)) >= 0`) come with each detection. The pipeline does not call `Kinematics.HeadTailFromBbox` itself.
- `Motion.WindowedVelocity`: `degrees(arctan2(dy, dx))` is the parameter `heading`, not modelled.
- `Motion.WindowedVelocity`: the speed is carried as its square, so no square root is taken. Floating-point rounding is not modelled, and reals are exact.
- `Tracker.Track`: `recent_deltas` hold squared distances rather than `np.linalg.norm` floats. Every comparison on them is the same comparison.
- `Kinematics.HeadTailFromBbox`: the axis vector is reported as a sign (`+u` or `-u`); a BALL reports `+u`.
- `Motion.VelocityMeaning`: the speed is stated positive exactly when the two window endpoints differ, not positive outright. `Motion.SpeedFloor` bounds a reported speed below by MIN_DISPLACEMENT_PX * FPS / N, which is positive whenever MIN_DISPLACEMENT_PX > 0. With MIN_DISPLACEMENT_PX = 0 a zero displacement passes the jitter check and reads speed 0.
- `Pipeline.GatedOffResets`: stated for settings in which speed 0 does not count as fast, not for "MIN_MOVEMENT_SPEED_PX_S > 0". The two are the same condition for a non-negative threshold; their equivalence is not proved here.
- `Pipeline.NewTrackFirstFrame`: the same hypothesis as GatedOffResets.
- `Tracker.SurvivesGrace`: the grace-then-rematch round trip is two lemmas. SurvivesGrace covers `max_lost` empty frames, and RematchSameCentroid covers the following re-match.
- `Tracker.AssignOneChoice`: a frame with two live tracks and two detections, each nearest a different track, has no lemma of its own; it is covered only by this per-detection statement.
- `Kinematics.ShortestTwo`: equal edge lengths are ordered towards the lower position. `np.argsort` with its default sort kind does not promise that order. Float rounding of the box lengths and of the pose ratio is not modelled either.
- `last_velocity_angle` is never pruned when a track is evicted, as in the source. `Pipeline.PlanktonPipeline.Valid` only keeps its keys below the tracker's counter.
