/**
 * The JavaScript values the visualisation code computes with: numbers that
 * may be NaN after coercing a CSV cell, `undefined` for a missing result, and
 * the comparison operators on numbers and on strings.
 */
module JsValues {

  datatype Option<T> = None | Some(value: T)

  /** A JavaScript number as produced by `+s` or `Number(s)` on a data cell:
      a finite value, or NaN when the text is not numeric. */
  datatype Num = Val(v: real) | NaN

  /** JavaScript `a > b` on numbers: false as soon as either side is NaN,
      and otherwise the order of the real values. */
  function Gt(a: Num, b: Num): (r: bool)
    ensures a.NaN? || b.NaN? ==> !r
    ensures r ==> a.Val? && b.Val? && a != b
    ensures a.Val? && b.Val? ==> (r <==> b.v < a.v)
  {
    a.Val? && b.Val? && a.v > b.v
  }

  /** On numbers `>` is a strict order, total between two different
      values; NaN is not comparable, not even with itself. */
  lemma GtStrictOrder(a: Num, b: Num, c: Num)
    ensures !(Gt(a, b) && Gt(b, a))
    ensures Gt(a, b) && Gt(b, c) ==> Gt(a, c)
    ensures a.Val? && b.Val? && a != b ==> Gt(a, b) || Gt(b, a)
    ensures !Gt(a, NaN) && !Gt(NaN, a)
  {
  }

  /** Two sequences that agree on their first n elements have tails that
      agree on their first n - 1. */
  lemma TailPrefixes<T>(a: seq<T>, b: seq<T>)
    ensures forall n :: 1 <= n <= |a| && n <= |b| && a[..n] == b[..n] ==> a[1..][..n - 1] == b[1..][..n - 1]
    ensures 0 < |a| < |b| && a == b[..|a|] ==> a[1..] == b[1..][..|a| - 1]
    ensures 0 < |b| <= |a| && b == a[..|b|] ==> b[1..] == a[1..][..|b| - 1]
  {
    forall n | 1 <= n <= |a| && n <= |b| && a[..n] == b[..n]
      ensures a[1..][..n - 1] == b[1..][..n - 1]
    {
      assert a[1..][..n - 1] == a[..n][1..];
      assert b[1..][..n - 1] == b[..n][1..];
    }
    if 0 < |a| < |b| && a == b[..|a|] {
      assert a[1..] == b[..|a|][1..];
    }
    if 0 < |b| <= |a| && b == a[..|b|] {
      assert b[1..] == a[..|b|][1..];
    }
  }

  /** JavaScript `a < b` on two strings: lexicographic, character by
      character: the first position where they differ decides, and a proper
      prefix is smaller. Characters are compared by
      their code points here; JavaScript compares UTF-16 code units, which
      gives the same order except between a character in U+E000..U+FFFF
      and one above U+FFFF. */
  function StrLess(a: string, b: string): (r: bool)
    ensures r ==> a != b
    ensures |a| < |b| && a == b[..|a|] ==> r
    ensures |b| <= |a| && b == a[..|b|] ==> !r
    ensures forall i :: 0 <= i < |a| && i < |b| && a[..i] == b[..i] && a[i] != b[i] ==> (r <==> a[i] < b[i])
    decreases |a|
  {
    if |b| == 0 then false
    else if |a| == 0 then true
    else if a[0] != b[0] then a[0] < b[0]
    else
      TailPrefixes(a, b);
      StrLess(a[1..], b[1..])
  }

  lemma {:induction false} StrLessTransitive(a: string, b: string, c: string)
    requires StrLess(a, b) && StrLess(b, c)
    ensures StrLess(a, c)
    decreases |a|
  {
    if |a| > 0 && a[0] == b[0] && b[0] == c[0] {
      StrLessTransitive(a[1..], b[1..], c[1..]);
    }
  }

  /** Any two different strings are ordered one way or the other. */
  lemma {:induction false} StrLessTotal(a: string, b: string)
    requires a != b
    ensures StrLess(a, b) || StrLess(b, a)
    decreases |a|
  {
    if |a| > 0 && |b| > 0 && a[0] == b[0] {
      assert a == [a[0]] + a[1..] && b == [b[0]] + b[1..];
      StrLessTotal(a[1..], b[1..]);
    }
  }

  lemma StrLessAsymmetric(a: string, b: string)
    requires StrLess(a, b)
    ensures !StrLess(b, a)
  {
  }
}
