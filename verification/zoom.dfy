/**
 * The zoom progression of the animation: each frame multiplies the zoom by
 * 1.03, and a zoom above a fixed threshold snaps back to the seed 0.001.
 * The driver threads this one scalar from frame to frame; ZoomAfter models
 * the value it hands to the n-th later frame.
 */
module Zoom {
  import opened Arithmetic

  /** The zoom of the first frame. */
  const Seed: real := 0.001

  /** Above this zoom the next frame starts over from Seed. */
  const ResetThreshold: real := 357686241040.31244

  /** The per-frame magnification factor. */
  const Growth: real := 1.03

  /** The zoom of the next frame. */
  function NextZoom(zoom: real): (next: real)
    ensures zoom > 0.0 ==> next > 0.0
    ensures zoom > ResetThreshold ==> next == Seed
    ensures 0.0 < zoom <= ResetThreshold ==> zoom < next <= ResetThreshold * Growth
  {
    if zoom > ResetThreshold then Seed else zoom * Growth
  }

  /** The zooms the animation can take: positive and at most one step past the threshold. */
  predicate ZoomInRange(zoom: real)
  {
    0.0 < zoom <= ResetThreshold * Growth
  }

  lemma NextZoomKeepsRange(zoom: real)
    requires ZoomInRange(zoom)
    ensures ZoomInRange(NextZoom(zoom))
  {
  }

  /**
   * The zoom n frames after a frame drawn at zoom: the value the driver hands
   * to the n-th later frame. From a zoom in range, every such zoom stays in range.
   */
  function ZoomAfter(zoom: real, n: nat): (z: real)
    ensures ZoomInRange(zoom) ==> ZoomInRange(z)
  {
    if n == 0 then zoom else NextZoom(ZoomAfter(zoom, n - 1))
  }

  /** A zoom just above the threshold resets exactly; zoom 1 grows to 1.03. */
  lemma NextZoomExamples()
    ensures NextZoom(357686241040.4) == Seed
    ensures NextZoom(1.0) == 1.03
  {
  }

  // ---------------------------------------------------------------------------
  // The animation always starts over

  /** Frames of uninterrupted growth that at least double the zoom (1.03^34 >= 2). */
  const DoublingFrames: nat := 34

  /** Growth raised to the power k. */
  function GrowthPower(k: nat): real
  {
    if k == 0 then 1.0 else GrowthPower(k - 1) * Growth
  }

  function Power2(k: nat): real
  {
    if k == 0 then 1.0 else 2.0 * Power2(k - 1)
  }

  /** Some frame among the next n + 1, this one included, is drawn past the threshold. */
  ghost predicate PassesThreshold(zoom: real, n: nat)
  {
    exists m :: 0 <= m <= n && ZoomAfter(zoom, m) > ResetThreshold
  }

  /** n + m frames later is m frames after the frame n frames later. */
  lemma {:induction false} ZoomAfterSplit(zoom: real, n: nat, m: nat)
    ensures ZoomAfter(zoom, n + m) == ZoomAfter(ZoomAfter(zoom, n), m)
  {
    if m > 0 {
      ZoomAfterSplit(zoom, n, m - 1);
    }
  }

  /** As long as no reset happens, the zoom grows geometrically. */
  lemma {:induction false} ZoomAfterWithoutReset(zoom: real, k: nat)
    requires forall m :: 0 <= m < k ==> ZoomAfter(zoom, m) <= ResetThreshold
    ensures ZoomAfter(zoom, k) == zoom * GrowthPower(k)
  {
    if k > 0 {
      ZoomAfterWithoutReset(zoom, k - 1);
      var y := ZoomAfter(zoom, k - 1);
      assert y <= ResetThreshold;
      calc {
        ZoomAfter(zoom, k);
        NextZoom(y);
        y * Growth;
        (zoom * GrowthPower(k - 1)) * Growth;
        zoom * (GrowthPower(k - 1) * Growth);
        zoom * GrowthPower(k);
      }
    }
  }

  /** Bernoulli's inequality for the growth factor: 1.03^k >= 1 + 0.03·k. */
  lemma {:induction false} GrowthPowerBound(k: nat)
    ensures GrowthPower(k) >= 1.0 + 0.03 * k as real
  {
    if k > 0 {
      GrowthPowerBound(k - 1);
    }
  }

  /** Uninterrupted growth over DoublingFrames frames at least doubles a positive zoom. */
  lemma DoublesWithoutReset(zoom: real, k: nat)
    requires zoom > 0.0 && k >= DoublingFrames
    requires forall m :: 0 <= m < k ==> ZoomAfter(zoom, m) <= ResetThreshold
    ensures ZoomAfter(zoom, k) >= 2.0 * zoom
  {
    GrowthPowerBound(k);
    calc {
      ZoomAfter(zoom, k);
    == { ZoomAfterWithoutReset(zoom, k); }
      zoom * GrowthPower(k);
    >= { MulMonotone(zoom, 2.0, GrowthPower(k)); }
      2.0 * zoom;
    }
  }

  /** Within DoublingFrames frames a positive zoom passes the threshold or doubles. */
  lemma PassesOrDoublesOnce(zoom: real)
    requires zoom > 0.0
    ensures PassesThreshold(zoom, DoublingFrames) || ZoomAfter(zoom, DoublingFrames) >= 2.0 * zoom
  {
    if !PassesThreshold(zoom, DoublingFrames) {
      DoublesWithoutReset(zoom, DoublingFrames);
    }
  }

  /** Passing the threshold within n frames is passing it within any later bound. */
  lemma PassesThresholdExtends(zoom: real, n: nat, n': nat)
    requires n <= n' && PassesThreshold(zoom, n)
    ensures PassesThreshold(zoom, n')
  {
  }

  /** A pass after n frames of a later start is a pass of the earlier start. */
  lemma PassesThresholdShift(zoom: real, n: nat, m: nat)
    requires PassesThreshold(ZoomAfter(zoom, n), m)
    ensures PassesThreshold(zoom, n + m)
  {
    var j :| 0 <= j <= m && ZoomAfter(ZoomAfter(zoom, n), j) > ResetThreshold;
    ZoomAfterSplit(zoom, n, j);
  }

  lemma {:induction false} Power2Positive(k: nat)
    ensures Power2(k) > 0.0
  {
    if k > 0 {
      Power2Positive(k - 1);
    }
  }

  /**
   * After DoublingFrames·k frames either some frame went past the threshold
   * or the zoom has grown at least 2^k-fold.
   */
  lemma {:induction false} PassesOrGrows(zoom: real, k: nat)
    requires zoom > 0.0
    ensures PassesThreshold(zoom, DoublingFrames * k)
            || ZoomAfter(zoom, DoublingFrames * k) >= Power2(k) * zoom
  {
    if k > 0 {
      var n := DoublingFrames * (k - 1);
      assert DoublingFrames * k == n + DoublingFrames;
      PassesOrGrows(zoom, k - 1);
      if PassesThreshold(zoom, n) {
        PassesThresholdExtends(zoom, n, n + DoublingFrames);
      } else {
        var p := Power2(k - 1);
        assert Power2(k) == 2.0 * p;
        Power2Positive(k - 1);
        PassesOrGrowsStep(zoom, n, p);
      }
    }
  }

  /** One more block of DoublingFrames frames from a zoom already grown p-fold. */
  lemma PassesOrGrowsStep(zoom: real, n: nat, p: real)
    requires zoom > 0.0 && p > 0.0
    requires ZoomAfter(zoom, n) >= p * zoom
    ensures PassesThreshold(zoom, n + DoublingFrames)
            || ZoomAfter(zoom, n + DoublingFrames) >= 2.0 * p * zoom
  {
    var y := ZoomAfter(zoom, n);
    PositiveProduct(p, zoom);
    PassesOrDoublesOnce(y);
    ZoomAfterSplit(zoom, n, DoublingFrames);
    if PassesThreshold(y, DoublingFrames) {
      PassesThresholdShift(zoom, n, DoublingFrames);
    }
  }

  lemma {:induction false} Power2Add(a: nat, b: nat)
    ensures Power2(a + b) == Power2(a) * Power2(b)
  {
    if b > 0 {
      Power2Add(a, b - 1);
      assert Power2(a + b) == 2.0 * (Power2(a) * Power2(b - 1));
    }
  }

  /** 2^49 = 562949953421312. */
  lemma Power2Of49()
    ensures Power2(49) == 562949953421312.0
  {
    assert Power2(10) == 1024.0;
    assert Power2(9) == 512.0;
    Power2Add(10, 10);
    Power2Add(20, 20);
    Power2Add(40, 9);
  }

  /**
   * From any zoom at or above the seed, the animation returns to the seed
   * within 34·49 + 1 = 1667 frames: 34·49 frames of growth multiply the zoom
   * past the threshold, and the frame after that resets it.
   */
  lemma ResetWithin1667Frames(zoom: real)
    requires zoom >= Seed
    ensures exists n :: 0 < n <= 1667 && ZoomAfter(zoom, n) == Seed
  {
    PassesOrGrows(zoom, 49);
    if !PassesThreshold(zoom, DoublingFrames * 49) {
      Power2Of49();
      assert ZoomAfter(zoom, DoublingFrames * 49) > ResetThreshold;
    }
    var m :| 0 <= m <= DoublingFrames * 49 && ZoomAfter(zoom, m) > ResetThreshold;
    assert ZoomAfter(zoom, m + 1) == Seed;
  }
}
