/** Whole-cent arithmetic: sums, round-half-up division, and the cumulative rounding that three of the
    planners share. Amounts are integers in cents, so the source's `money` is the identity on them. */
module Rounding {

  function Sum(s: seq<int>): int {
    if s == [] then 0 else s[0] + Sum(s[1..])
  }

  lemma {:induction false} SumConcat(a: seq<int>, b: seq<int>)
    ensures Sum(a + b) == Sum(a) + Sum(b)
  {
    if a == [] {
      assert a + b == b;
    } else {
      SumConcat(a[1..], b);
      assert (a + b)[1..] == a[1..] + b;
    }
  }

  lemma SumPrefix(s: seq<int>, i: nat)
    requires i < |s|
    ensures Sum(s[..i + 1]) == Sum(s[..i]) + s[i]
  {
    SumConcat(s[..i], [s[i]]);
    assert s[..i + 1] == s[..i] + [s[i]];
    assert [s[i]][1..] == [];
  }

  /** Replacing one element moves the sum by the difference. */
  lemma SumUpdate(s: seq<int>, i: nat, x: int)
    requires i < |s|
    ensures Sum(s[i := x]) == Sum(s) - s[i] + x
  {
    var t := s[i := x];
    SumPrefix(s, i);
    SumPrefix(t, i);
    SumConcat(s[..i + 1], s[i + 1..]);
    SumConcat(t[..i + 1], t[i + 1..]);
    assert s == s[..i + 1] + s[i + 1..] && t == t[..i + 1] + t[i + 1..];
    assert s[..i] == t[..i] && s[i + 1..] == t[i + 1..];
  }

  lemma {:induction false} SumNonNegative(s: seq<int>)
    requires forall k :: 0 <= k < |s| ==> s[k] >= 0
    ensures Sum(s) >= 0
    ensures forall k :: 0 <= k < |s| ==> s[k] <= Sum(s)
  {
    if s != [] {
      SumNonNegative(s[1..]);
      forall k | 0 <= k < |s| ensures s[k] <= Sum(s) {
        if k > 0 { assert s[k] == s[1..][k - 1]; }
      }
    }
  }

  lemma {:induction false} SumMonotone(a: seq<int>, b: seq<int>)
    requires |a| == |b|
    requires forall k :: 0 <= k < |a| ==> a[k] <= b[k]
    ensures Sum(a) <= Sum(b)
  {
    if a != [] { SumMonotone(a[1..], b[1..]); }
  }

  lemma {:induction false} SumDifference(a: seq<int>, b: seq<int>, d: seq<int>)
    requires |a| == |b| == |d|
    requires forall k :: 0 <= k < |a| ==> d[k] == a[k] - b[k]
    ensures Sum(d) == Sum(a) - Sum(b)
  {
    if a != [] { SumDifference(a[1..], b[1..], d[1..]); }
  }

  function Min(a: int, b: int): int { if a <= b then a else b }

  function Max(a: int, b: int): int { if a >= b then a else b }

  /** `r` is `num / den` to the nearest whole, halves up, for a denominator of either sign. */
  predicate IsRounded(r: int, num: int, den: int) {
    if den > 0 then 2 * num - den < 2 * (den * r) <= 2 * num + den
    else 2 * num - den > 2 * (den * r) >= 2 * num + den
  }

  /** `Math.round(num / den)`: the nearest whole number, and the upper one of two equally near. */
  function RoundDiv(num: int, den: int): (r: int)
    requires den != 0
    ensures IsRounded(r, num, den)
  {
    RoundedExists(num, den);
    RoundedUnique(num, den);
    var r :| IsRounded(r, num, den);
    r
  }

  lemma RoundedExists(num: int, den: int)
    requires den != 0
    ensures exists r :: IsRounded(r, num, den)
  {
    var r := if den > 0 then (2 * num + den) / (2 * den) else (-2 * num - den) / (-2 * den);
    assert IsRounded(r, num, den);
  }

  lemma RoundedUnique(num: int, den: int)
    requires den != 0
    ensures forall r, q :: IsRounded(r, num, den) && IsRounded(q, num, den) ==> r == q
  {
    forall r, q | IsRounded(r, num, den) && IsRounded(q, num, den) ensures r == q {
      OneRounded(num, den, r, q);
    }
  }

  lemma OneRounded(num: int, den: int, r: int, q: int)
    requires den != 0 && IsRounded(r, num, den) && IsRounded(q, num, den)
    ensures r == q
  {
    assert den * (r - q) == den * r - den * q;
    assert den * (q - r) == den * q - den * r;
    assert (-den) * (r - q) == den * (q - r) && (-den) * (q - r) == den * (r - q);
    if r > q { MulGrows(if den > 0 then den else -den, r - q); }
    if q > r { MulGrows(if den > 0 then den else -den, q - r); }
  }

  /** The bound of `RoundDiv` determines it. */
  lemma RoundDivUnique(num: int, den: int, r: int)
    requires den != 0 && IsRounded(r, num, den)
    ensures r == RoundDiv(num, den)
  {
    OneRounded(num, den, r, RoundDiv(num, den));
  }

  lemma MulGrows(den: int, k: int)
    requires den > 0 && k >= 1
    ensures den * k >= den
  {
  }

  /** A factor common to both sides cancels out exactly, whatever the sign of the denominator. */
  lemma RoundDivExact(k: int, den: int)
    requires den != 0
    ensures RoundDiv(k * den, den) == k
  {
    RoundDivUnique(k * den, den, k);
  }

  lemma RoundDivMonotone(a: int, b: int, den: int)
    requires den > 0 && a <= b
    ensures RoundDiv(a, den) <= RoundDiv(b, den)
  {
    var p, q := RoundDiv(a, den), RoundDiv(b, den);
    assert den * (p - q) == den * p - den * q;
    if p > q { MulGrows(den, p - q); }
  }

  lemma RoundDivShift(num: int, k: int, den: int)
    requires den > 0
    ensures RoundDiv(num + den * k, den) == RoundDiv(num, den) + k
  {
    var r := RoundDiv(num, den);
    assert den * (r + k) == den * r + den * k;
    RoundDivUnique(num + den * k, den, r + k);
  }

  /** A share of `whole` rounded to the cent stays between nothing and the whole. */
  lemma RoundDivShare(whole: int, part: int, den: int)
    requires den > 0 && 0 <= part <= den && 0 <= whole
    ensures 0 <= RoundDiv(whole * part, den) <= whole
  {
    RoundDivExact(0, den);
    RoundDivExact(whole, den);
    MulMonotone(whole, part, den);
    RoundDivMonotone(0, whole * part, den);
    RoundDivMonotone(whole * part, whole * den, den);
  }

  lemma MulMonotone(k: int, a: int, b: int)
    requires 0 <= k && 0 <= a <= b
    ensures 0 <= k * a <= k * b
  {
    assert k * (b - a) >= 0;
    assert k * b == k * a + k * (b - a);
  }

  // ─── Cumulative rounding ──────────────────────────────────────────────────

  /** What `target` comes to once the first `i` weights are through: the rounded running share. */
  function UpTo(target: int, weights: seq<int>, i: nat): int
    requires i <= |weights|
  {
    if Sum(weights) == 0 then 0 else RoundDiv(target * Sum(weights[..i]), Sum(weights))
  }

  /** The piece each weight takes: the running share through it less the running share before it. */
  function Pieces(target: int, weights: seq<int>): (p: seq<int>)
    ensures |p| == |weights|
  {
    seq(|weights|, i requires 0 <= i < |weights| => UpTo(target, weights, i + 1) - UpTo(target, weights, i))
  }

  lemma {:induction false} PiecesPrefix(target: int, weights: seq<int>, i: nat)
    requires i <= |weights|
    ensures Sum(Pieces(target, weights)[..i]) == UpTo(target, weights, i)
  {
    var p := Pieces(target, weights);
    if i == 0 {
      assert target * Sum(weights[..0]) == 0;
      if Sum(weights) != 0 { RoundDivExact(0, Sum(weights)); }
    } else {
      PiecesPrefix(target, weights, i - 1);
      SumPrefix(p, i - 1);
    }
  }

  /** Whatever the weights, positive or negative, the pieces sum to the target to the cent. */
  lemma PiecesSum(target: int, weights: seq<int>)
    ensures Sum(Pieces(target, weights)) == if Sum(weights) == 0 then 0 else target
  {
    var p := Pieces(target, weights);
    PiecesPrefix(target, weights, |weights|);
    assert p[..|weights|] == p && weights[..|weights|] == weights;
    if Sum(weights) != 0 { RoundDivExact(target, Sum(weights)); }
  }

  /** `piece` is strictly within one of the quotient `num / den`. */
  predicate WithinOne(piece: int, num: int, den: int) {
    num - den < den * piece < num + den
  }

  lemma PieceIs(target: int, weights: seq<int>, i: nat)
    requires i < |weights| && Sum(weights) != 0
    ensures Pieces(target, weights)[i]
         == RoundDiv(target * Sum(weights[..i]) + target * weights[i], Sum(weights))
            - RoundDiv(target * Sum(weights[..i]), Sum(weights))
  {
    var before, w, total := Sum(weights[..i]), weights[i], Sum(weights);
    SumPrefix(weights, i);
    Distribute(target, before, w);
    assert UpTo(target, weights, i) == RoundDiv(target * before, total);
    assert UpTo(target, weights, i + 1) == RoundDiv(target * before + target * w, total);
  }

  lemma Distribute(k: int, a: int, b: int)
    ensures k * (a + b) == k * a + k * b
  {
  }

  /** Every piece is strictly within one cent of its exact share. */
  lemma PieceWithinOne(target: int, weights: seq<int>, i: nat)
    requires i < |weights| && Sum(weights) > 0
    ensures WithinOne(Pieces(target, weights)[i], target * weights[i], Sum(weights))
  {
    PieceIs(target, weights, i);
    RoundDivGap(target * Sum(weights[..i]), target * weights[i], Sum(weights));
  }

  lemma RoundDivGap(num: int, step: int, den: int)
    requires den > 0
    ensures WithinOne(RoundDiv(num + step, den) - RoundDiv(num, den), step, den)
  {
    var a, b := RoundDiv(num, den), RoundDiv(num + step, den);
    assert den * (b - a) == den * b - den * a;
  }

  /** With non-negative weights and a target no larger than their sum, a piece never exceeds its weight. */
  lemma PieceWithinWeight(target: int, weights: seq<int>, i: nat)
    requires i < |weights| && 0 <= target <= Sum(weights) && Sum(weights) > 0
    requires forall k :: 0 <= k < |weights| ==> weights[k] >= 0
    ensures 0 <= Pieces(target, weights)[i] <= weights[i]
  {
    PieceIs(target, weights, i);
    ShareWithinWhole(target, weights[i], Sum(weights));
    RoundDivStep(target * Sum(weights[..i]), target * weights[i], weights[i], Sum(weights));
  }

  lemma ShareWithinWhole(target: int, w: int, total: int)
    requires 0 <= target <= total && 0 <= w
    ensures 0 <= target * w <= w * total
  {
    MulMonotone(w, target, total);
    assert target * w == w * target;
  }

  /** Moving the numerator by at most `k` whole denominators moves the quotient by at most `k`. */
  lemma RoundDivStep(num: int, step: int, k: int, den: int)
    requires den > 0 && 0 <= step <= k * den
    ensures 0 <= RoundDiv(num + step, den) - RoundDiv(num, den) <= k
  {
    RoundDivMonotone(num, num + step, den);
    RoundDivMonotone(num + step, num + den * k, den);
    RoundDivShift(num, k, den);
  }

  // ─── Rounding down ────────────────────────────────────────────────────────

  predicate IsFloor(r: int, num: int, den: int) { den * r <= num < den * r + den }

  /** `Math.floor(num / den)`. */
  function FloorDiv(num: int, den: int): (r: int)
    requires den > 0
    ensures IsFloor(r, num, den)
  {
    FloorExists(num, den);
    var r :| IsFloor(r, num, den);
    r
  }

  lemma FloorExists(num: int, den: int)
    requires den > 0
    ensures exists r :: IsFloor(r, num, den)
    ensures forall r, q :: IsFloor(r, num, den) && IsFloor(q, num, den) ==> r == q
  {
    assert IsFloor(num / den, num, den);
    forall r, q | IsFloor(r, num, den) && IsFloor(q, num, den) ensures r == q { FloorUnique(num, den, r, q); }
  }

  lemma FloorUnique(num: int, den: int, r: int, q: int)
    requires den > 0 && IsFloor(r, num, den) && IsFloor(q, num, den)
    ensures r == q
  {
    assert den * (r - q) == den * r - den * q && den * (q - r) == den * q - den * r;
    if r > q { MulGrows(den, r - q); }
    if q > r { MulGrows(den, q - r); }
  }

  /** What rounding down leaves over. */
  function Remainder(num: int, den: int): (r: int)
    requires den > 0
    ensures 0 <= r < den
  {
    num - den * FloorDiv(num, den)
  }
}
