/** JavaScript number operations the components use on times: truncation,
    the remainder operator `%`, and `toFixed(0)`. Numbers are exact reals. */
module JsNumber {
  import opened Text

  /** `Math.trunc`: rounding toward zero, so the result has the sign of `x`
      and lies less than one away from it, on the side of zero. */
  function Trunc(x: real): (r: int)
    ensures x >= 0.0 ==> 0 <= r && r as real <= x < r as real + 1.0
    ensures x < 0.0 ==> r <= 0 && r as real - 1.0 < x <= r as real
  {
    if x >= 0.0 then x.Floor else -((-x).Floor)
  }

  /** Scaling an inequality by a positive factor keeps it. */
  lemma ScaleBounds(m: real, lo: real, y: real, hi: real)
    requires m > 0.0 && lo <= y < hi
    ensures m * lo <= m * y < m * hi
  {
  }

  /** The remainder of `x / m` truncated, times `m`, lies in `[0, m)`
      for a non-negative `x`. */
  lemma FloorRemainder(x: real, m: real)
    requires m > 0.0 && x >= 0.0
    ensures 0.0 <= x - m * (x / m).Floor as real < m
  {
    var q := (x / m).Floor as real;
    ScaleBounds(m, q, x / m, q + 1.0);
    assert m * (x / m) == x;
  }

  /** JavaScript's `x % m` on numbers: the remainder of truncated division
      (Dafny's `%` is Euclidean instead). */
  function JsRem(x: real, m: real): real
    requires m != 0.0
  {
    x - m * Trunc(x / m) as real
  }

  /** The remainder takes the sign of `x` and is smaller than `m` in size. */
  lemma JsRemRange(x: real, m: real)
    requires m > 0.0
    ensures x >= 0.0 ==> 0.0 <= JsRem(x, m) < m
    ensures x < 0.0 ==> -m < JsRem(x, m) <= 0.0
  {
    if x >= 0.0 {
      FloorRemainder(x, m);
    } else {
      var f := ((-x) / m).Floor;
      assert -(x / m) == (-x) / m;
      assert Trunc(x / m) == -f;
      FloorRemainder(-x, m);
      assert JsRem(x, m) == -(-x - m * f as real);
    }
  }

  /** `x` minus its remainder is a whole multiple of `m`. */
  lemma JsRemMultiple(x: real, m: real)
    requires m != 0.0
    ensures ((x - JsRem(x, m)) / m).Floor as real == (x - JsRem(x, m)) / m
  {
    assert (x - JsRem(x, m)) / m == Trunc(x / m) as real;
  }

  /** `Math.floor(t / 60)` of a non-negative time is the number of whole
      minutes in its whole seconds. */
  lemma FloorMinutes(t: real)
    requires t >= 0.0
    ensures (t / 60.0).Floor == t.Floor / 60
  {
    var q := (t / 60.0).Floor;
    assert q as real <= t / 60.0 < q as real + 1.0;
    assert 60 * q <= t.Floor < 60 * q + 60;
  }

  /** `x.toFixed(0)` for a number below 10^21 in size: the nearest integer,
      halves rounded away from zero, with a minus sign when `x` is negative
      (so `(-0.3).toFixed(0)` is `-0`). */
  function ToFixed0(x: real): string {
    if x < 0.0 then "-" + NatToString((-x + 0.5).Floor)
    else NatToString((x + 0.5).Floor)
  }

  /** The text of `x.toFixed(0)` is an integer text whose digits read back as
      a whole number within one half of `|x|`, halves going up. */
  lemma ToFixed0Rounds(x: real)
    ensures 1 <= |ToFixed0(x)| && IsIntText(ToFixed0(x))
    ensures x >= 0.0 ==>
              var n := ParseNat(ToFixed0(x)) as real;
              AllDigits(ToFixed0(x)) && n - 0.5 <= x < n + 0.5
    ensures x < 0.0 ==>
              var n := ParseNat(ToFixed0(x)[1..]) as real;
              ToFixed0(x)[0] == '-' && n - 0.5 <= -x < n + 0.5
  {
    var k := ((if x < 0.0 then -x else x) + 0.5).Floor;
    ParseNatToString(k);
    if x < 0.0 {
      assert ToFixed0(x)[1..] == NatToString(k);
    }
  }
}
