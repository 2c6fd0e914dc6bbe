/**
 * Angles as real numbers: wrapping into (-pi, pi] and rounding to an integer. Pi is the constant the
 * program computes with, the double nearest to the number; the laws hold for it exactly.
 */
module Angle {

  const PI: real := 884279719003555.0 / 281474976710656.0
  const TWO_PI: real := 884279719003555.0 / 140737488355328.0

  /** Towards zero. */
  function Trunc(x: real): int {
    if x >= 0.0 then x.Floor else -(-x).Floor
  }

  /** The C library's remainder: it has the sign of its first operand. */
  function Fmod(x: real, m: real): real
    requires m > 0.0
  {
    x - m * (Trunc(x / m) as real)
  }

  function Wrap(x: real): real {
    var wrapped := Fmod(x, TWO_PI);
    if wrapped <= -PI then wrapped + TWO_PI else if wrapped > PI then wrapped - TWO_PI else wrapped
  }

  function Abs(x: real): real {
    if x < 0.0 then -x else x
  }

  /** To the nearest integer, halves away from zero. */
  function Round(x: real): int {
    if x >= 0.0 then (x + 0.5).Floor else -(-x + 0.5).Floor
  }

  lemma FmodRange(x: real)
    ensures -TWO_PI < Fmod(x, TWO_PI) < TWO_PI
  {
    var q := x / TWO_PI;
    assert x == TWO_PI * q;
  }

  /** Wrapping takes away whole turns and lands in (-pi, pi]. */
  lemma WrapTurns(x: real) returns (turns: int)
    ensures Wrap(x) == x - TWO_PI * (turns as real)
    ensures -PI < Wrap(x) <= PI
  {
    FmodRange(x);
    var w := Fmod(x, TWO_PI);
    turns := Trunc(x / TWO_PI) + if w <= -PI then -1 else if w > PI then 1 else 0;
  }

  /** It is the only value there that whole turns reach. */
  lemma WrapUnique(x: real, y: real, turns: int)
    requires y == x - TWO_PI * (turns as real) && -PI < y <= PI
    ensures Wrap(x) == y
  {
    var m := WrapTurns(x);
    var d := (m - turns) as real;
    assert y - Wrap(x) == TWO_PI * d;
    assert -1.0 < d < 1.0;
    assert m == turns;
  }

  lemma RoundInteger(n: int)
    ensures Round(n as real) == n
  {}
}
