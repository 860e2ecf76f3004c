/** Shared vocabulary: optional values, results of calls that may trap, the widths of the
    contracts' integers, and sums over finite maps. */
module Prelude {

  datatype Option<+T> = None | Some(value: T) {
    function GetOr(default: T): T {
      match this
      case Some(v) => v
      case None => default
    }
  }

  datatype Result<+T, +E> = Ok(value: T) | Err(error: E)

  type Address = nat

  const I128_MAX: int := 0x7FFF_FFFF_FFFF_FFFF_FFFF_FFFF_FFFF_FFFF
  const I128_MIN: int := -0x8000_0000_0000_0000_0000_0000_0000_0000
  const U64_MAX: int := 0xFFFF_FFFF_FFFF_FFFF
  const U32_MAX: int := 0xFFFF_FFFF

  predicate IsI128(x: int) { I128_MIN <= x <= I128_MAX }

  function Min(a: int, b: int): int { if a < b then a else b }

  function Max(a: int, b: int): int { if a < b then b else a }

  /** `i128::saturating_add` and `saturating_sub`. */
  function SaturatingI128(x: int): (r: int)
    ensures IsI128(r)
    ensures IsI128(x) ==> r == x
  {
    if x > I128_MAX then I128_MAX else if x < I128_MIN then I128_MIN else x
  }

  /** The sum of `f` over the values of a finite map. */
  ghost function SumBy<K, V>(m: map<K, V>, f: V -> int): int
  {
    if m == map[] then 0 else
      var k :| k in m;
      f(m[k]) + SumBy(m - {k}, f)
  }

  lemma {:induction false} SumByRemove<K, V>(m: map<K, V>, k: K, f: V -> int)
    requires k in m
    ensures SumBy(m, f) == f(m[k]) + SumBy(m - {k}, f)
    decreases |m|
  {
    var j :| j in m && SumBy(m, f) == f(m[j]) + SumBy(m - {j}, f);
    if j != k {
      SumByRemove(m - {j}, k, f);
      SumByRemove(m - {k}, j, f);
      assert m - {j} - {k} == m - {k} - {j};
    }
  }

  lemma {:induction false} SumByUpdate<K, V>(m: map<K, V>, k: K, v: V, f: V -> int)
    ensures SumBy(m[k := v], f) == SumBy(m, f) + f(v) - (if k in m then f(m[k]) else 0)
  {
    SumByRemove(m[k := v], k, f);
    assert m[k := v] - {k} == m - {k};
    if k in m {
      SumByRemove(m, k, f);
    } else {
      assert m - {k} == m;
    }
  }

  lemma {:induction false} SumByBounds<K, V>(m: map<K, V>, k: K, f: V -> int)
    requires k in m
    requires forall j :: j in m ==> f(m[j]) >= 0
    ensures 0 <= f(m[k]) <= SumBy(m, f)
  {
    SumByRemove(m, k, f);
    SumByNonNegative(m - {k}, f);
  }

  lemma {:induction false} SumByNonNegative<K, V>(m: map<K, V>, f: V -> int)
    requires forall j :: j in m ==> f(m[j]) >= 0
    ensures SumBy(m, f) >= 0
    decreases |m|
  {
    if m != map[] {
      var k :| k in m && SumBy(m, f) == f(m[k]) + SumBy(m - {k}, f);
      SumByNonNegative(m - {k}, f);
    }
  }

  function Same(x: int): int { x }

  /** The sum of a map of amounts. */
  ghost function Sum<K>(m: map<K, int>): int { SumBy(m, Same) }

  // ----- floor division -----

  lemma {:induction false} DivBounds(a: int, d: int)
    requires d > 0
    ensures d * (a / d) <= a < d * (a / d) + d
  {
  }

  lemma {:induction false} DivAtMost(a: int, d: int, q: int)
    requires d > 0 && a < d * (q + 1)
    ensures a / d <= q
  {
    DivBounds(a, d);
    if a / d > q {
      MulMono(d, q + 1, a / d);
    }
  }

  lemma {:induction false} DivAtLeast(a: int, d: int, q: int)
    requires d > 0 && d * q <= a
    ensures q <= a / d
  {
    DivBounds(a, d);
    if a / d < q {
      MulMono(d, a / d + 1, q);
    }
  }

  lemma {:induction false} MulMono(c: int, a: int, b: int)
    requires c >= 0 && a <= b
    ensures c * a <= c * b
  {
    assert c * (b - a) >= 0;
  }

  lemma {:induction false} DivMono(a: int, b: int, d: int)
    requires d > 0 && a <= b
    ensures a / d <= b / d
  {
    DivBounds(a, d);
    DivAtLeast(b, d, a / d);
  }
}
