/**
 * The zoom of the side panel: a level clamped to [0.3, 1.5] and rounded to
 * hundredths. Levels are exact reals; the current zoom is kept as an integer
 * number of hundredths (30..150).
 */
module Zoom {
  import opened Wrappers

  const ZoomStep: real := 0.1
  const ZoomMin: real := 0.3
  const ZoomMax: real := 1.5

  /** The bounds of the current zoom, in hundredths. */
  const MinHundredths: int := 30
  const MaxHundredths: int := 150

  function Min(a: real, b: real): real { if a <= b then a else b }
  function Max(a: real, b: real): real { if a >= b then a else b }

  /** `Math.max(ZOOM_MIN, Math.min(ZOOM_MAX, level))`. */
  function Clamp(level: real): (r: real)
    ensures ZoomMin <= r <= ZoomMax
    ensures ZoomMin <= level <= ZoomMax ==> r == level
    ensures level < ZoomMin ==> r == ZoomMin
    ensures level > ZoomMax ==> r == ZoomMax
  {
    Max(ZoomMin, Min(ZoomMax, level))
  }

  /** `Math.round`: to the nearest integer, halves upwards. */
  function Round(x: real): (r: int)
    ensures r as real - 0.5 <= x < r as real + 0.5
  {
    (x + 0.5).Floor
  }

  /**
   * The new `currentZoom`, in hundredths, that `applyZoom(level)` computes:
   * within bounds, the nearest hundredth to the clamped level, and
   * the nearest bound when `level` lies outside them.
   */
  function ZoomHundredths(level: real): (r: int)
    ensures MinHundredths <= r <= MaxHundredths
    ensures r as real - 0.5 <= Clamp(level) * 100.0 < r as real + 0.5
    ensures level <= ZoomMin ==> r == MinHundredths
    ensures level >= ZoomMax ==> r == MaxHundredths
  {
    Round(Clamp(level) * 100.0)
  }

  /** A level already in range and on a hundredth is left as it is: `applyZoom` is idempotent. */
  lemma ZoomKeepsHundredths(k: int)
    requires MinHundredths <= k <= MaxHundredths
    ensures ZoomHundredths(k as real / 100.0) == k
  {
  }

  /** A higher requested level never gives a lower zoom. */
  lemma ZoomMonotone(a: real, b: real)
    requires a <= b
    ensures ZoomHundredths(a) <= ZoomHundredths(b)
  {
  }

  /** Zoom in (`currentZoom + ZOOM_STEP`) adds ten hundredths, stopping at the upper bound. */
  lemma ZoomInStep(z: int)
    requires MinHundredths <= z <= MaxHundredths
    ensures ZoomHundredths(z as real / 100.0 + ZoomStep) ==
            if z + 10 <= MaxHundredths then z + 10 else MaxHundredths
  {
  }

  /** Zoom out (`currentZoom - ZOOM_STEP`) takes off ten hundredths, stopping at the lower bound. */
  lemma ZoomOutStep(z: int)
    requires MinHundredths <= z <= MaxHundredths
    ensures ZoomHundredths(z as real / 100.0 - ZoomStep) ==
            if z - 10 >= MinHundredths then z - 10 else MinHundredths
  {
  }

  /**
   * The zoom after start-up reads `omniZoomLevel`: a stored level that is present,
   * non-zero and not exactly 1 is applied; otherwise the zoom stays at 1.0.
   */
  function RestoreZoom(saved: Option<real>): (r: int)
    ensures MinHundredths <= r <= MaxHundredths
    ensures !ReappliesZoom(saved) ==> r == 100
    ensures ReappliesZoom(saved) ==> r == ZoomHundredths(saved.value)
  {
    if ReappliesZoom(saved) then ZoomHundredths(saved.value) else 100
  }

  /** `saved.omniZoomLevel && saved.omniZoomLevel !== 1`: the stored level is re-applied at start-up. */
  predicate ReappliesZoom(saved: Option<real>)
  {
    saved.Some? && saved.value != 0.0 && saved.value != 1.0
  }

  /** Zoom round trip: restoring the level `applyZoom` stored gives back the same zoom. */
  lemma RestoreZoomRoundTrip(z: int)
    requires MinHundredths <= z <= MaxHundredths
    ensures RestoreZoom(Some(z as real / 100.0)) == z
  {
  }
}
