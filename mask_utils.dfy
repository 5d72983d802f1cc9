/** The circular region-of-interest filter (mask_utils.py) on a `uint8`
    foreground mask, held as a sequence of rows. */
module MaskUtils {
  import opened Common
  import opened Config

  /** Whether pixel (x, y) lies in the closed disc of radius MASK_RADIUS
      around (MASK_XC, MASK_YC); the boundary belongs to the disc. */
  predicate InCircle(x: int, y: int, cfg: Settings)
  {
    Sq(x - cfg.maskXc) + Sq(y - cfg.maskYc) <= cfg.maskRadius * cfg.maskRadius
  }

  /** apply_circular_mask: the mask itself when ENABLE_MASK is off;
      otherwise each pixel multiplied by 1 inside the disc and by 0
      outside it. */
  function ApplyCircularMask(mask: seq<seq<byte>>, cfg: Settings): (out: seq<seq<byte>>)
    ensures |out| == |mask|
    ensures forall y :: 0 <= y < |mask| ==> |out[y]| == |mask[y]|
  {
    if !cfg.enableMask then mask
    else
      seq(|mask|, y requires 0 <= y < |mask| =>
        seq(|mask[y]|, x requires 0 <= x < |mask[y]| =>
          mask[y][x] * (if InCircle(x, y, cfg) then 1 else 0)))
  }

  /** With ENABLE_MASK off the mask comes back unchanged. */
  lemma DisabledIsIdentity(mask: seq<seq<byte>>, cfg: Settings)
    requires !cfg.enableMask
    ensures ApplyCircularMask(mask, cfg) == mask
  {
  }

  /** What happens to each pixel: inside the disc (boundary included) it
      keeps its value, outside it becomes 0. */
  lemma PixelRule(mask: seq<seq<byte>>, cfg: Settings, x: nat, y: nat)
    requires cfg.enableMask
    requires y < |mask| && x < |mask[y]|
    ensures InCircle(x, y, cfg) ==> ApplyCircularMask(mask, cfg)[y][x] == mask[y][x]
    ensures !InCircle(x, y, cfg) ==> ApplyCircularMask(mask, cfg)[y][x] == 0
  {
  }

  /** Masking never creates foreground: a 0 pixel stays 0, and every output
      pixel is either the input pixel or 0. */
  lemma NoNewForeground(mask: seq<seq<byte>>, cfg: Settings)
    ensures var out := ApplyCircularMask(mask, cfg);
            forall y, x :: 0 <= y < |mask| && 0 <= x < |mask[y]| ==>
              (out[y][x] == mask[y][x] || out[y][x] == 0) && (mask[y][x] == 0 ==> out[y][x] == 0)
  {
  }

  /** Masking twice is masking once. */
  lemma Idempotent(mask: seq<seq<byte>>, cfg: Settings)
    ensures ApplyCircularMask(ApplyCircularMask(mask, cfg), cfg) == ApplyCircularMask(mask, cfg)
  {
    if cfg.enableMask {
      var once := ApplyCircularMask(mask, cfg);
      var twice := ApplyCircularMask(once, cfg);
      forall y | 0 <= y < |mask|
        ensures twice[y] == once[y]
      {
        forall x | 0 <= x < |mask[y]|
          ensures twice[y][x] == once[y][x]
        {
          PixelRule(mask, cfg, x, y);
          PixelRule(once, cfg, x, y);
        }
      }
    }
  }
}
