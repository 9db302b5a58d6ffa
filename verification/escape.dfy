/**
 * The escape-time check of the renderer: iterate z := c + z·z from zero and
 * report the first step at which |z| >= 2, or that none of the first
 * MaxIterations iterates got that far.
 */
module EscapeTime {
  import opened ComplexNumbers
  import opened Arithmetic

  datatype Option<T> = None | Some(value: T)

  /** The fixed iteration cap of the check. */
  const MaxIterations: nat := 30

  /** |z| >= 2, stated on the squared magnitude (see MagnitudeThreshold); zero never escapes. */
  predicate Escaped(z: Complex)
    ensures Escaped(z) ==> z != Zero
  {
    MagSq(z) >= 4.0
  }

  /** Loop index i of the check finds the value escaped: iterate i + 1 has |z| >= 2. */
  predicate EscapesAt(c: Complex, i: nat)
  {
    Escaped(Iter(c, i + 1))
  }

  /** One step of the recurrence, in the order the source writes it: c + z·z. */
  function Step(c: Complex, z: Complex): (next: Complex)
    ensures z == Zero ==> next == c
  {
    Add(c, Mul(z, z))
  }

  /**
   * The n-th iterate of the recurrence started at zero: the first iterate is
   * c itself, and from the origin every iterate stays at zero.
   */
  function Iter(c: Complex, n: nat): (z: Complex)
    ensures n == 1 ==> z == c
    ensures c == Zero ==> z == Zero
  {
    if n == 0 then Zero else Step(c, Iter(c, n - 1))
  }

  /**
   * The first loop index i in [from, MaxIterations) whose iterate Iter(c, i + 1)
   * has escaped, or None. Loop index i inspects iterate i + 1, because the
   * source updates the value before it tests it.
   */
  function EscapeFrom(c: Complex, from: nat): (r: Option<nat>)
    requires from <= MaxIterations
    ensures r.Some? ==> from <= r.value < MaxIterations && EscapesAt(c, r.value)
    ensures r.Some? ==> forall j :: from <= j < r.value ==> !EscapesAt(c, j)
    ensures r.None? ==> forall j :: from <= j < MaxIterations ==> !EscapesAt(c, j)
    decreases MaxIterations - from
  {
    if from == MaxIterations then None
    else if EscapesAt(c, from) then Some(from)
    else EscapeFrom(c, from + 1)
  }

  /**
   * The escape time of c: None, or the first loop index below the cap at
   * which the iterate has escaped.
   */
  function EscapeCount(c: Complex): (r: Option<nat>)
    ensures r.Some? ==> r.value < MaxIterations && EscapesAt(c, r.value)
    ensures r.Some? ==> forall j :: 0 <= j < r.value ==> !EscapesAt(c, j)
    ensures r.None? ==> forall j :: 0 <= j < MaxIterations ==> !EscapesAt(c, j)
  {
    EscapeFrom(c, 0)
  }

  /**
   * The check itself: a loop of MaxIterations steps that reassigns num and
   * returns as soon as num has escaped.
   */
  method Check(c: Complex) returns (res: Option<nat>)
    ensures res == EscapeCount(c)
  {
    var num := Zero;
    assert num == Iter(c, 0);
    for i := 0 to MaxIterations
      invariant num == Iter(c, i)
      invariant forall j :: 0 <= j < i ==> !EscapesAt(c, j)
    {
      num := Add(c, Mul(num, num));
      assert num == Iter(c, i + 1);
      if MagSq(num) >= 4.0 {
        EscapeCountIsFirst(c, i);
        return Some(i);
      }
    }
    EscapeCountNone(c);
    return None;
  }

  /** Conversely, the first escaping loop index below the cap is the escape time. */
  lemma EscapeCountIsFirst(c: Complex, k: nat)
    requires k < MaxIterations && EscapesAt(c, k)
    requires forall j :: 0 <= j < k ==> !EscapesAt(c, j)
    ensures EscapeCount(c) == Some(k)
  {
  }

  /** Conversely, a point none of whose loop indices escapes is reported as interior. */
  lemma EscapeCountNone(c: Complex)
    requires forall j :: 0 <= j < MaxIterations ==> !EscapesAt(c, j)
    ensures EscapeCount(c) == None
  {
  }

  // ---------------------------------------------------------------------------
  // Properties

  /**
   * The squared test agrees with the source's |z| >= 2 for every candidate
   * magnitude s, i.e. every non-negative s with s·s == MagSq(z).
   */
  lemma MagnitudeThreshold(z: Complex, s: real)
    requires IsMagnitude(z, s)
    ensures s >= 2.0 <==> Escaped(z)
  {
    if s >= 2.0 {
      calc {
        MagSq(z);
        s * s;
      >= { MulMonotone(s, 2.0, s); }
        s * 2.0;
      >= 4.0;
      }
    } else {
      calc {
        MagSq(z);
        s * s;
      <= { MulMonotone(s, s, 2.0); }
        s * 2.0;
      < 4.0;
      }
    }
  }

  /** The origin never escapes: it is reported as interior. */
  lemma OriginIsInterior()
    ensures EscapeCount(Zero) == None
  {
    assert forall j :: 0 <= j < MaxIterations ==> !EscapesAt(Zero, j);
    EscapeCountNone(Zero);
  }

  /** The first iterate is c itself, so a point with |c| >= 2 escapes at index 0. */
  lemma FarPointEscapesImmediately(c: Complex)
    requires Escaped(c)
    ensures EscapeCount(c) == Some(0)
  {
    EscapeCountIsFirst(c, 0);
  }

  /** The point 5 + 5i escapes at index 0. */
  lemma FarPointExample()
    ensures EscapeCount(Complex(5.0, 5.0)) == Some(0)
  {
    FarPointEscapesImmediately(Complex(5.0, 5.0));
  }
}
