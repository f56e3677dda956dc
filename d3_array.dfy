/**
 * The three d3-array helpers the visualisation calls: `d3.range`, and
 * `d3.min` / `d3.max` with an accessor. Only their observable results are
 * modelled; each is stated for the element types the callers pass.
 */
module D3Array {
  import opened JsValues

  /** Number of elements of `d3.range(start, stop, step)`:
      max(0, ceil((stop - start) / step)), and none for a zero step. */
  function RangeLength(start: int, stop: int, step: int): nat
  {
    if step > 0 then
      (if stop - start <= 0 then 0 else (stop - start + step - 1) / step)
    else if step < 0 then
      (if start - stop <= 0 then 0 else (start - stop - step - 1) / (-step))
    else 0
  }

  /** ceil(d / s) steps of s stay below d, and one more would reach it. */
  lemma CeilSteps(d: int, s: int, i: int)
    requires d > 0 && s > 0 && 0 <= i < (d + s - 1) / s
    ensures i * s < d
    ensures (d + s - 1) / s * s >= d
  {
    var q := (d + s - 1) / s;
    assert q * s + (d + s - 1) % s == d + s - 1;
    assert i * s <= (q - 1) * s by {
      assert (q - 1) * s - i * s == (q - 1 - i) * s;
    }
  }

  /** The i-th element of `d3.range(start, stop, step)`. */
  function RangeAt(start: int, step: int, i: int): int
  {
    start + i * step
  }

  /** Consecutive elements of a range are one step apart. */
  lemma RangeNeighbours(start: int, step: int, n: int)
    ensures forall i, j :: 0 <= i && j == i + 1 && j < n ==> RangeAt(start, step, j) == RangeAt(start, step, i) + step
  {
    forall i, j | 0 <= i && j == i + 1 && j < n ensures RangeAt(start, step, j) == RangeAt(start, step, i) + step {
      assert j * step == i * step + step;
    }
  }

  /** A rising range stays in [start, stop), and one more step reaches stop. */
  lemma RangeRising(start: int, stop: int, step: int)
    requires step > 0 && start < stop
    ensures var n := (stop - start + step - 1) / step;
      && n > 0
      && (forall i :: 0 <= i < n ==> start <= RangeAt(start, step, i) < stop)
      && RangeAt(start, step, n - 1) + step >= stop
  {
    var n := (stop - start + step - 1) / step;
    forall i | 0 <= i < n ensures start <= RangeAt(start, step, i) < stop {
      CeilSteps(stop - start, step, i);
    }
    CeilSteps(stop - start, step, 0);
    assert (n - 1) * step + step == n * step;
  }

  /** Multiplying by a negated factor negates the product. */
  lemma MulNeg(i: int, s: int)
    ensures i * -s == -(i * s)
  {
  }

  /** A falling range stays in (stop, start], and one more step reaches stop. */
  lemma RangeFalling(start: int, stop: int, step: int)
    requires step < 0 && stop < start
    ensures var n := (start - stop - step - 1) / -step;
      && n > 0
      && (forall i :: 0 <= i < n ==> stop < RangeAt(start, step, i) <= start)
      && RangeAt(start, step, n - 1) + step <= stop
  {
    var s := -step;
    var n := (start - stop + s - 1) / s;
    forall i | 0 <= i < n ensures stop < RangeAt(start, step, i) <= start {
      CeilSteps(start - stop, s, i);
      MulNeg(i, s);
    }
    CeilSteps(start - stop, s, 0);
    MulNeg(n - 1, s);
    assert (n - 1) * s + s == n * s;
  }

  /** The elements of the range, listed by position. */
  function RangeSeq(start: int, stop: int, step: int): seq<int>
  {
    seq(RangeLength(start, stop, step), i => RangeAt(start, step, i))
  }

  /** `d3.range(start, stop, step)`: start, start + step, ... short of stop.
      Every element lies between start and stop in the step's direction,
      consecutive elements are one step apart, the first is start, and the
      range does not end early: one more step would reach or pass stop. A
      zero step, or a stop behind start, gives the empty range. */
  function Range(start: int, stop: int, step: int): (r: seq<int>)
    ensures r == [] <==> step == 0 || (step > 0 && stop <= start) || (step < 0 && start <= stop)
    ensures r != [] ==> r[0] == start
    ensures forall i, j :: 0 <= i && j == i + 1 && j < |r| ==> r[j] == r[i] + step
    ensures step > 0 ==> forall i :: 0 <= i < |r| ==> start <= r[i] < stop
    ensures step < 0 ==> forall i :: 0 <= i < |r| ==> stop < r[i] <= start
    ensures step > 0 && r != [] ==> r[|r| - 1] + step >= stop
    ensures step < 0 && r != [] ==> r[|r| - 1] + step <= stop
  {
    RangeNeighbours(start, step, RangeLength(start, stop, step));
    if step > 0 && start < stop then RangeRising(start, stop, step); RangeSeq(start, stop, step)
    else if step < 0 && stop < start then RangeFalling(start, stop, step); RangeSeq(start, stop, step)
    else RangeSeq(start, stop, step)
  }

  /** With a step of one, the range is the integers of [start, stop). */
  lemma RangeUp(start: int, stop: int)
    ensures |Range(start, stop, 1)| == if start <= stop then stop - start else 0
    ensures forall i :: 0 <= i < |Range(start, stop, 1)| ==> Range(start, stop, 1)[i] == start + i
  {
  }

  /** With a step of minus one, the range is the integers of (stop, start], falling. */
  lemma RangeDown(start: int, stop: int)
    ensures |Range(start, stop, -1)| == if stop <= start then start - stop else 0
    ensures forall i :: 0 <= i < |Range(start, stop, -1)| ==> Range(start, stop, -1)[i] == start - i
  {
  }

  /** `d3.max(values, accessor)` on numbers: NaN values are skipped, and the
      result is `undefined` (None) when no value is comparable. */
  function MaxOf(xs: seq<Num>): (r: Option<real>)
    ensures r.None? <==> forall i :: 0 <= i < |xs| ==> xs[i].NaN?
    ensures r.Some? ==> Val(r.value) in xs
    ensures r.Some? ==> forall i :: 0 <= i < |xs| && xs[i].Val? ==> xs[i].v <= r.value
  {
    if xs == [] then None
    else
      var rest := MaxOf(xs[1..]);
      match xs[0]
      case NaN => rest
      case Val(x) => if rest.Some? && rest.value > x then rest else Some(x)
  }

  /** `d3.min(values, accessor)` on numbers: the mirror image of MaxOf. */
  function MinOf(xs: seq<Num>): (r: Option<real>)
    ensures r.None? <==> forall i :: 0 <= i < |xs| ==> xs[i].NaN?
    ensures r.Some? ==> Val(r.value) in xs
    ensures r.Some? ==> forall i :: 0 <= i < |xs| && xs[i].Val? ==> r.value <= xs[i].v
  {
    if xs == [] then None
    else
      var rest := MinOf(xs[1..]);
      match xs[0]
      case NaN => rest
      case Val(x) => if rest.Some? && rest.value < x then rest else Some(x)
  }

  /** `d3.max(values, accessor)` when the accessor yields strings: every
      string is comparable, and the largest one under JavaScript's string
      `<` wins. The maximum of a strict total order is unique, so scanning
      from the right gives the same string as d3's left-to-right scan. */
  function StrMaxOf(xs: seq<string>): (r: Option<string>)
    ensures r.None? <==> xs == []
    ensures r.Some? ==> r.value in xs
    ensures r.Some? ==> forall i :: 0 <= i < |xs| ==> !StrLess(r.value, xs[i])
  {
    if xs == [] then None
    else
      var rest := StrMaxOf(xs[1..]);
      assert forall i :: 1 <= i < |xs| ==> xs[i] == xs[1..][i - 1];
      if rest.Some? && StrLess(xs[0], rest.value) then
        StrLessAsymmetric(xs[0], rest.value);
        rest
      else if rest.Some? then
        StrMaxKeepsHead(xs[0], rest.value, xs[1..]);
        Some(xs[0])
      else
        Some(xs[0])
  }

  /** A head that does not compare below the maximum of the rest is not
      below any element of the rest either. */
  lemma StrMaxKeepsHead(x: string, m: string, rest: seq<string>)
    requires forall i :: 0 <= i < |rest| ==> !StrLess(m, rest[i])
    requires !StrLess(x, m)
    ensures forall i :: 0 <= i < |rest| ==> !StrLess(x, rest[i])
  {
    forall i | 0 <= i < |rest|
      ensures !StrLess(x, rest[i])
    {
      if StrLess(x, rest[i]) && x != m {
        StrLessTotal(x, m);
        StrLessTransitive(m, x, rest[i]);
      }
    }
  }
}
