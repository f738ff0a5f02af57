/**
 * The reconnect back-off of the monitor connection: `Decayer` and the retry
 * loop of `connect_to_server`. Arithmetic is exact (`real`); the source works
 * on Python floats.
 */
module Backoff {

  function Min(a: real, b: real): real {
    if a <= b then a else b
  }

  function Pow(m: real, k: nat): real {
    if k == 0 then 1.0 else m * Pow(m, k - 1)
  }

  /**
   * One `decay()` step from `current`: never above the cap, never above the
   * multiplied value, and equal to one of the two.
   */
  function Step(current: real, multiplier: real, maximum: real): (r: real)
    ensures r <= maximum && r <= current * multiplier
    ensures r == current * multiplier || r == maximum
  {
    Min(current * multiplier, maximum)
  }

  /** `current` after `k` calls to `decay()` starting from `start`. */
  function After(start: real, multiplier: real, maximum: real, k: nat): real {
    if k == 0 then start else Step(After(start, multiplier, maximum, k - 1), multiplier, maximum)
  }

  /**
   * `reset()` divides so that the first `decay()` afterwards yields exactly
   * `initial` (when `initial` is within the cap).
   */
  lemma FirstDecayAfterReset(initial: real, multiplier: real, maximum: real)
    requires multiplier != 0.0 && initial <= maximum
    ensures After(initial / multiplier, multiplier, maximum, 1) == initial
  {
    assert initial / multiplier * multiplier == initial;
  }

  lemma ScaleMonotone(x: real, y: real, m: real)
    requires x <= y && m >= 0.0
    ensures x * m <= y * m
  {
  }

  lemma Rearrange(x: real, y: real, z: real)
    ensures x * (y * z) == (x * z) * y
  {
  }

  /** Decaying a capped value is capping the decayed value. */
  lemma StepOfCapped(a: real, multiplier: real, maximum: real)
    requires multiplier >= 1.0 && maximum >= 0.0
    ensures Step(Min(a, maximum), multiplier, maximum) == Min(a * multiplier, maximum)
  {
    if a > maximum {
      ScaleMonotone(1.0, multiplier, maximum);
      ScaleMonotone(1.0, multiplier, a);
    }
  }

  /** initial * multiplier^k, capped at `maximum`: the closed form of the delays. */
  function Backoff(initial: real, multiplier: real, maximum: real, k: nat): real {
    Min(initial * Pow(multiplier, k), maximum)
  }

  /**
   * When the first step from `start` yields `initial` capped, the (k+1)-th
   * yields initial * multiplier^k, capped.
   */
  lemma {:induction false} AfterClosedForm(start: real, initial: real, multiplier: real, maximum: real, k: nat)
    requires multiplier >= 1.0 && maximum >= 0.0
    requires After(start, multiplier, maximum, 1) == Backoff(initial, multiplier, maximum, 0)
    ensures After(start, multiplier, maximum, k + 1) == Backoff(initial, multiplier, maximum, k)
  {
    if k > 0 {
      AfterClosedForm(start, initial, multiplier, maximum, k - 1);
      BackoffStep(initial, multiplier, maximum, k);
    }
  }

  /** Each closed-form delay is one `decay()` step from the one before. */
  lemma BackoffStep(initial: real, multiplier: real, maximum: real, k: nat)
    requires multiplier >= 1.0 && maximum >= 0.0 && k > 0
    ensures Backoff(initial, multiplier, maximum, k) == Step(Backoff(initial, multiplier, maximum, k - 1), multiplier, maximum)
  {
    var p := Pow(multiplier, k - 1);
    StepOfCapped(initial * p, multiplier, maximum);
    Rearrange(initial, multiplier, p);
  }

  /**
   * With a multiplier of at least one, the (k+1)-th `decay()` after a reset
   * yields initial * multiplier^k, capped at `maximum`.
   */
  lemma AfterResetClosedForm(initial: real, multiplier: real, maximum: real, k: nat)
    requires multiplier >= 1.0 && maximum >= 0.0
    ensures After(initial / multiplier, multiplier, maximum, k + 1) == Backoff(initial, multiplier, maximum, k)
  {
    var start := initial / multiplier;
    assert start * multiplier == initial;
    AfterClosedForm(start, initial, multiplier, maximum, k);
  }

  /** A step from a value within [0, maximum] does not go down. */
  lemma StepGrows(current: real, multiplier: real, maximum: real)
    requires 0.0 <= current <= maximum && multiplier >= 1.0
    ensures current <= Step(current, multiplier, maximum)
  {
    assert current * multiplier >= current * 1.0;
  }

  /**
   * Successive `decay()` results after a reset never decrease, given a
   * multiplier of at least one and non-negative `initial` and `maximum`.
   */
  lemma {:induction false} DecayNondecreasing(initial: real, multiplier: real, maximum: real, i: nat, j: nat)
    requires multiplier >= 1.0 && initial >= 0.0 && maximum >= 0.0
    requires 1 <= i <= j
    decreases j
    ensures 0.0 <= After(initial / multiplier, multiplier, maximum, i)
    ensures After(initial / multiplier, multiplier, maximum, i) <= After(initial / multiplier, multiplier, maximum, j)
  {
    var start := initial / multiplier;
    if j == 1 {
      assert start * multiplier == initial;
    } else {
      DecayNondecreasing(initial, multiplier, maximum, j - 1, j - 1);
      StepGrows(After(start, multiplier, maximum, j - 1), multiplier, maximum);
      if i < j {
        DecayNondecreasing(initial, multiplier, maximum, i, j - 1);
      }
    }
  }

  /**
   * The back-off state of one reconnect loop. `reset` and `decay` update
   * `current` in place.
   */
  class Decayer {
    const initial: real
    const multiplier: real
    const maximum: real
    var current: real

    /** Dividing by the multiplier raises ZeroDivisionError at 0, so callers pass a non-zero one. */
    constructor (initial: real, multiplier: real, maximum: real)
      requires multiplier != 0.0
      ensures this.initial == initial && this.multiplier == multiplier && this.maximum == maximum
      ensures current == initial / multiplier
    {
      this.initial := initial;
      this.multiplier := multiplier;
      this.maximum := maximum;
      current := initial / multiplier;
    }

    /** Sets `current` so that the next `Decay` yields `initial`; returns it. */
    method Reset() returns (r: real)
      requires multiplier != 0.0
      modifies this
      ensures current == initial / multiplier && r == current
      ensures initial <= maximum ==> Step(current, multiplier, maximum) == initial
    {
      current := initial / multiplier;
      r := current;
      assert current * multiplier == initial;
    }

    /** Multiplies `current`, caps it at `maximum`, stores and returns it. */
    method Decay() returns (r: real)
      modifies this
      ensures current == Step(old(current), multiplier, maximum)
      ensures r == current && r <= maximum
    {
      current := Min(current * multiplier, maximum);
      r := current;
    }
  }

  /**
   * The retry loop of `connect_to_server`, given the outcome of each
   * connection attempt in turn (true: connected). A fresh
   * `Decayer(0.25, 1.5, 8)` is made per call and only failures call
   * `decay()`; each delay returned is one the loop sleeps through. The loop
   * stops at the first success; when the outcomes run out first, `connected`
   * is false.
   */
  method ConnectToServer(attempts: seq<bool>) returns (delays: seq<real>, connected: bool)
    ensures |delays| <= |attempts|
    ensures connected <==> true in attempts
    ensures forall i :: 0 <= i < |delays| ==> !attempts[i]
    ensures connected ==> |delays| < |attempts| && attempts[|delays|]
    ensures !connected ==> |delays| == |attempts|
    ensures forall i :: 0 <= i < |delays| ==> delays[i] == Backoff(0.25, 1.5, 8.0, i)
    ensures forall i, j :: 0 <= i <= j < |delays| ==> 0.0 <= delays[i] <= delays[j] <= 8.0
  {
    var decayer := new Decayer(0.25, 1.5, 8.0);
    delays := [];
    connected := false;
    var n := 0;
    while n < |attempts|
      invariant 0 <= n <= |attempts| && |delays| == n && !connected
      invariant forall i :: 0 <= i < n ==> !attempts[i]
      invariant decayer.multiplier == 1.5 && decayer.maximum == 8.0
      invariant decayer.current == After(0.25 / 1.5, 1.5, 8.0, n)
      invariant forall i :: 0 <= i < n ==> delays[i] == After(0.25 / 1.5, 1.5, 8.0, i + 1)
    {
      if attempts[n] {
        connected := true;
        break;
      }
      var delay := decayer.Decay();
      delays := delays + [delay];
      n := n + 1;
    }
    forall i | 0 <= i < |delays|
      ensures delays[i] == Backoff(0.25, 1.5, 8.0, i)
    {
      AfterResetClosedForm(0.25, 1.5, 8.0, i);
    }
    forall i, j | 0 <= i <= j < |delays|
      ensures 0.0 <= delays[i] <= delays[j] <= 8.0
    {
      DecayNondecreasing(0.25, 1.5, 8.0, i + 1, j + 1);
    }
  }
}
