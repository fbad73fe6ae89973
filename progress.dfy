/**
 * Percent complete, as shown in the header: answered questions against the
 * questions of the full list that are visible under the live flags.
 */
module Progress {
  import opened Conditions
  import opened Schema
  import opened Flow

  function VisibleCount(qs: seq<Question>, flags: Flags): (n: nat)
    ensures n <= |qs|
  {
    |Visible(qs, flags)|
  }

  /**
   * round(100 * min(answered, visible) / visible), rounding halves up, or 0
   * when nothing is visible. The rounding is exact rational arithmetic:
   * p is the integer nearest to 100 * a / v, the upper one on a tie.
   */
  function ProgressPercent(qs: seq<Question>, flags: Flags, answered: nat): (p: nat)
    ensures p <= 100
    ensures VisibleCount(qs, flags) == 0 ==> p == 0
    ensures VisibleCount(qs, flags) > 0 && answered >= VisibleCount(qs, flags) ==> p == 100
    ensures var v := VisibleCount(qs, flags);
            var a := if answered < v then answered else v;
            v > 0 ==> v * (2 * p - 1) <= 200 * a < v * (2 * p + 1)
  {
    var v := VisibleCount(qs, flags);
    if v == 0 then 0
    else
      var a := if answered < v then answered else v;
      RoundedPercent(a, v)
  }

  /** (200a + v) div 2v is the nearest integer to 100a/v, halves rounded up. */
  function RoundedPercent(a: nat, v: nat): (p: nat)
    requires 0 < v && a <= v
    ensures p <= 100
    ensures a == v ==> p == 100
    ensures v * (2 * p - 1) <= 200 * a < v * (2 * p + 1)
  {
    var p := (200 * a + v) / (2 * v);
    DivisionBrackets(200 * a + v, 2 * v);
    RoundingBrackets(a, v, p);
    p
  }

  /** Euclidean division brackets its dividend. */
  lemma DivisionBrackets(n: nat, d: nat)
    requires d > 0
    ensures d * (n / d) <= n < d * (n / d) + d
  {
  }

  lemma RoundingBrackets(a: nat, v: nat, p: nat)
    requires 0 < v && a <= v
    requires 2 * v * p <= 200 * a + v < 2 * v * p + 2 * v
    ensures p <= 100
    ensures a == v ==> p == 100
    ensures v * (2 * p - 1) <= 200 * a < v * (2 * p + 1)
  {
    assert v * (2 * p - 1) == 2 * v * p - v;
    assert v * (2 * p + 1) == 2 * v * p + v;
    if p > 100 {
      assert 2 * v * p >= 2 * v * 101 by { MultiplyMonotone(2 * v, 101, p); }
    }
  }

  lemma MultiplyMonotone(d: nat, x: nat, y: nat)
    requires x <= y
    ensures d * x <= d * y
  {
  }

  /** Answering more never lowers the percent while the flags stay the same. */
  lemma {:induction false} ProgressMonotone(qs: seq<Question>, flags: Flags, a1: nat, a2: nat)
    requires a1 <= a2
    ensures ProgressPercent(qs, flags, a1) <= ProgressPercent(qs, flags, a2)
  {
    var v := VisibleCount(qs, flags);
    if v > 0 {
      var b1 := if a1 < v then a1 else v;
      var b2 := if a2 < v then a2 else v;
      var p1, p2 := ProgressPercent(qs, flags, a1), ProgressPercent(qs, flags, a2);
      if p1 > p2 {
        MultiplyMonotone(v, 2 * p2 + 1, 2 * p1 - 1);
      }
    }
  }
}
