/** The tuning constants of the pipeline (config.py), passed explicitly to
    every operation instead of being read from a global module. */
module Config {

  datatype Settings = Settings(
    fps: nat,                        // FPS
    enableMask: bool,                // ENABLE_MASK
    maskXc: int,                     // MASK_XC
    maskYc: int,                     // MASK_YC
    maskRadius: int,                 // MASK_RADIUS
    minFrameDisplacementPx: real,    // MIN_FRAME_DISPLACEMENT_PX
    detectWindowFrames: nat,         // DETECT_WINDOW_FRAMES
    detectMinCount: nat,             // DETECT_MIN_COUNT
    maxHistory: nat,                 // MAX_HISTORY
    maxTrackDist: nat,               // MAX_TRACK_DIST
    maxLostFrames: nat,              // MAX_LOST_FRAMES
    velocityWindowFrames: nat,       // VELOCITY_WINDOW_FRAMES
    kConsecutiveFrames: nat,         // K_CONSECUTIVE_FRAMES
    minMovementSpeedPxS: real,       // MIN_MOVEMENT_SPEED_PX_S
    ballAspectEps: real,             // BALL_ASPECT_EPS
    numCapLines: nat,                // NUM_CAP_LINES
    minDisplacementPx: real          // MIN_DISPLACEMENT_PX
  ) {
    /** A configuration the pipeline can run with: positive frame rate and
        window sizes, non-negative thresholds. */
    predicate Valid()
    {
      && fps >= 1
      && detectWindowFrames >= 1
      && maxHistory >= 1
      && velocityWindowFrames >= 1
      && minFrameDisplacementPx >= 0.0
      && minMovementSpeedPxS >= 0.0
      && minDisplacementPx >= 0.0
    }
  }

  /** The values shipped in config.py. */
  const Default: Settings := Settings(
    fps := 30,
    enableMask := false, maskXc := 320, maskYc := 256, maskRadius := 128,
    minFrameDisplacementPx := 0.5, detectWindowFrames := 5, detectMinCount := 3,
    maxHistory := 50, maxTrackDist := 50, maxLostFrames := 10,
    velocityWindowFrames := 15, kConsecutiveFrames := 3, minMovementSpeedPxS := 8.0,
    ballAspectEps := 0.25, numCapLines := 4, minDisplacementPx := 2.0)
}
