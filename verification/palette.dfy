/**
 * The colour of one pixel: black for a point that did not escape, otherwise
 * a per-channel gradient of the escape time, stored through a clamped byte
 * array (every store rounds to the nearest integer, ties to even, and
 * clamps to [0, 255], as the ECMAScript ToUint8Clamp conversion does).
 */
module Palette {
  import opened EscapeTime

  datatype Rgba = Rgba(red: int, green: int, blue: int, alpha: int)

  predicate IsByte(v: int)
  {
    0 <= v <= 255
  }

  /** The byte a clamped byte array stores when it is assigned the number v. */
  function ClampToByte(v: real): (b: int)
    ensures IsByte(b)
    ensures v <= 0.0 ==> b == 0
    ensures v >= 255.0 ==> b == 255
    ensures 0.0 <= v <= 255.0 ==> -0.5 <= b as real - v <= 0.5
    ensures 0.0 < v < 255.0 && (b as real - v == 0.5 || v - b as real == 0.5) ==> b % 2 == 0
  {
    if v <= 0.0 then 0
    else if v >= 255.0 then 255
    else
      var f := v.Floor;
      if f as real + 0.5 < v then f + 1
      else if v < f as real + 0.5 then f
      else if f % 2 == 1 then f + 1
      else f
  }

  /** Channel k of a pixel, in the buffer's R, G, B, A order. */
  function Channel(p: Rgba, k: nat): int
    requires k < 4
  {
    if k == 0 then p.red
    else if k == 1 then p.green
    else if k == 2 then p.blue
    else p.alpha
  }

  /**
   * The colour of a pixel whose check returned esc: opaque black for an
   * interior point, otherwise k/30·255, k/50·255 and k/15·255, each stored
   * through the clamped byte array, over an opaque alpha.
   */
  function Shade(esc: Option<nat>): (p: Rgba)
    ensures IsByte(p.red) && IsByte(p.green) && IsByte(p.blue)
    ensures p.alpha == 255
    ensures esc.None? ==> p == Rgba(0, 0, 0, 255)
  {
    match esc
    case None => Rgba(0, 0, 0, 255)
    case Some(k) =>
      Rgba(ClampToByte(k as real / 30.0 * 255.0),
           ClampToByte(k as real / 50.0 * 255.0),
           ClampToByte(k as real / 15.0 * 255.0),
           255)
  }

  // ---------------------------------------------------------------------------
  // Properties of the clamped store

  /** Storing a value that already is a byte keeps it unchanged. */
  lemma ClampKeepsBytes(n: int)
    requires IsByte(n)
    ensures ClampToByte(n as real) == n
  {
  }

  /** The clamped store never reverses the order of two values. */
  lemma ClampMonotone(v: real, w: real)
    requires v <= w
    ensures ClampToByte(v) <= ClampToByte(w)
  {
  }

  // ---------------------------------------------------------------------------
  // Properties of the colour mapping

  /** A later escape is never darker, channel by channel. */
  lemma ShadeMonotone(j: nat, k: nat)
    requires j <= k
    ensures Shade(Some(j)).red <= Shade(Some(k)).red
    ensures Shade(Some(j)).green <= Shade(Some(k)).green
    ensures Shade(Some(j)).blue <= Shade(Some(k)).blue
  {
    ClampMonotone(j as real / 30.0 * 255.0, k as real / 30.0 * 255.0);
    ClampMonotone(j as real / 50.0 * 255.0, k as real / 50.0 * 255.0);
    ClampMonotone(j as real / 15.0 * 255.0, k as real / 15.0 * 255.0);
  }

  /** Over the escape times the check can return, only blue reaches the clamp: from 15 on it is saturated. */
  lemma ShadeSaturation(k: nat)
    requires k < MaxIterations
    ensures Shade(Some(k)).red < 255 && Shade(Some(k)).green < 255
    ensures Shade(Some(k)).blue == 255 <==> k >= 15
  {
  }

  /** A point that escapes at index 0 is painted like an interior point. */
  lemma ImmediateEscapeLooksInterior()
    ensures Shade(Some(0)) == Shade(None)
  {
  }

  /** Every later escape is told apart from the interior. */
  lemma LaterEscapeIsVisible(k: nat)
    requires 1 <= k
    ensures Shade(Some(k)) != Shade(None)
  {
    ClampMonotone(1.0 / 15.0 * 255.0, k as real / 15.0 * 255.0);
  }

  /**
   * Hand-computed colours: 1/30·255 = 8.5, 3/30·255 = 25.5 and 29/30·255 = 246.5
   * are ties and go to the even neighbour.
   */
  lemma ShadeExamples()
    ensures Shade(Some(1)) == Rgba(8, 5, 17, 255)
    ensures Shade(Some(3)) == Rgba(26, 15, 51, 255)
    ensures Shade(Some(29)) == Rgba(246, 148, 255, 255)
  {
  }
}
