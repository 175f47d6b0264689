/**
Greedy removal of near-duplicate texts by the cosine of their vectors (adapta/services/synthesis.py).

The square root is an arbitrary function; only the last lemma needs it to be non-negative.
*/
module NearDuplicates {
  import opened Prelude

  datatype Vector = Vector(xs: seq<real>)

  datatype Error = LengthMismatch

  const DEDUP_COSINE := 0.92

  /** The inner product of the first `k` coordinates. */
  function DotUpto(a: seq<real>, b: seq<real>, k: nat): real
    requires k <= |a| && k <= |b|
  {
    if k == 0 then 0.0 else DotUpto(a, b, k - 1) + a[k - 1] * b[k - 1]
  }

  function Dot(a: seq<real>, b: seq<real>): real
    requires |a| == |b|
  {
    DotUpto(a, b, |a|)
  }

  /** The vector's length, or one for a vector of length zero. */
  function Norm(sqrt: real -> real, v: Vector): real {
    var n := sqrt(Dot(v.xs, v.xs));
    if n == 0.0 then 1.0 else n
  }

  function Scale(xs: seq<real>, n: real): (r: seq<real>)
    requires n != 0.0
    ensures |r| == |xs|
  {
    seq(|xs|, i requires 0 <= i < |xs| => xs[i] / n)
  }

  function Unit(sqrt: real -> real, v: Vector): Vector {
    Vector(Scale(v.xs, Norm(sqrt, v)))
  }

  /** What the comparison looks at: the square root in use and the threshold. */
  datatype Rule = Rule(sqrt: real -> real, threshold: real := DEDUP_COSINE)

  predicate SameLength(v: Vector, w: Vector) {
    |v.xs| == |w.xs|
  }

  predicate Near(r: Rule, v: Vector, w: Vector) {
    SameLength(v, w) && Dot(Unit(r.sqrt, v).xs, Unit(r.sqrt, w).xs) > r.threshold
  }

  // ---- the mask ----------------------------------------------------------------------------------------

  /** Some item kept before `j` is near item `i`. */
  ghost predicate HitBefore(r: Rule, vs: seq<Vector>, keep: seq<bool>, i: nat, j: nat)
    requires i < |vs| && j <= |keep| && j <= |vs|
  {
    exists k | 0 <= k < j :: keep[k] && Near(r, vs[i], vs[k])
  }

  /** Item `i` is compared with kept item `j`: no kept item before `j` has settled the matter. */
  ghost predicate Compared(r: Rule, vs: seq<Vector>, keep: seq<bool>, i: nat, j: nat)
    requires i < |vs| && j < |keep| && j < |vs|
  {
    keep[j] && !HitBefore(r, vs, keep, i, j)
  }

  /** Item `i` is dropped exactly when an earlier kept item is near it, and every comparison made is defined. */
  ghost predicate Settled(r: Rule, vs: seq<Vector>, keep: seq<bool>, i: nat)
    requires i < |keep| <= |vs|
  {
    && (keep[i] <==> !HitBefore(r, vs, keep, i, i))
    && forall j | 0 <= j < i && Compared(r, vs, keep, i, j) :: SameLength(vs[i], vs[j])
  }

  ghost predicate IsGreedy(r: Rule, vs: seq<Vector>, keep: seq<bool>) {
    |keep| <= |vs| && forall i | 0 <= i < |keep| :: Settled(r, vs, keep, i)
  }

  ghost predicate IsMask(r: Rule, vs: seq<Vector>, keep: seq<bool>) {
    |keep| == |vs| && IsGreedy(r, vs, keep)
  }

  /** Two masks agree as far as both go. */
  lemma {:induction false} GreedyIsUnique(r: Rule, vs: seq<Vector>, a: seq<bool>, b: seq<bool>, n: nat)
    requires IsGreedy(r, vs, a) && IsGreedy(r, vs, b) && n <= |a| && n <= |b|
    ensures forall i | 0 <= i < n :: a[i] == b[i]
  {
    if n > 0 {
      GreedyIsUnique(r, vs, a, b, n - 1);
      assert Settled(r, vs, a, n - 1) && Settled(r, vs, b, n - 1);
    }
  }

  lemma MaskIsUnique(r: Rule, vs: seq<Vector>, a: seq<bool>, b: seq<bool>)
    requires IsMask(r, vs, a) && IsMask(r, vs, b)
    ensures a == b
  {
    GreedyIsUnique(r, vs, a, b, |vs|);
  }

  lemma {:induction false} DotCommutes(a: seq<real>, b: seq<real>, k: nat)
    requires k <= |a| && k <= |b|
    ensures DotUpto(a, b, k) == DotUpto(b, a, k)
  {
    if k > 0 {
      DotCommutes(a, b, k - 1);
    }
  }

  lemma NearIsSymmetric(r: Rule, v: Vector, w: Vector)
    ensures Near(r, v, w) <==> Near(r, w, v)
  {
    if SameLength(v, w) {
      DotCommutes(Unit(r.sqrt, v).xs, Unit(r.sqrt, w).xs, |v.xs|);
    }
  }

  /** Kept items are comparable and at or below the threshold, pair by pair, whichever is put first. */
  lemma KeptAreApart(r: Rule, vs: seq<Vector>, keep: seq<bool>, i: nat, j: nat)
    requires IsMask(r, vs, keep) && i < |vs| && j < |vs| && i != j && keep[i] && keep[j]
    ensures SameLength(vs[i], vs[j]) && !Near(r, vs[i], vs[j])
  {
    var lo, hi := if i < j then i else j, if i < j then j else i;
    assert Settled(r, vs, keep, hi);
    assert Compared(r, vs, keep, hi, lo);
    NearIsSymmetric(r, vs[hi], vs[lo]);
  }

  lemma DroppedHasEarlierKept(r: Rule, vs: seq<Vector>, keep: seq<bool>, i: nat) returns (j: nat)
    requires IsMask(r, vs, keep) && i < |vs| && !keep[i]
    ensures j < i && keep[j] && Near(r, vs[i], vs[j])
  {
    assert Settled(r, vs, keep, i);
    j :| j < i && keep[j] && Near(r, vs[i], vs[j]);
  }

  // ---- running it again --------------------------------------------------------------------------------

  /** The positions the mask keeps, in order. */
  ghost function Places(keep: seq<bool>): seq<nat> {
    if keep == [] then [] else
      var n := |keep| - 1;
      if keep[n] then Places(keep[..n]) + [n] else Places(keep[..n])
  }

  lemma {:induction false} PlacesAscend(keep: seq<bool>)
    ensures forall a | 0 <= a < |Places(keep)| :: Places(keep)[a] < |keep| && keep[Places(keep)[a]]
    ensures forall a, b | 0 <= a < b < |Places(keep)| :: Places(keep)[a] < Places(keep)[b]
  {
    if keep != [] {
      PlacesAscend(keep[..|keep| - 1]);
    }
  }

  ghost function Kept(vs: seq<Vector>, keep: seq<bool>): (r: seq<Vector>)
    requires |keep| == |vs|
    ensures |r| == |Places(keep)|
  {
    PlacesAscend(keep);
    seq(|Places(keep)|, a requires 0 <= a < |Places(keep)| => vs[Places(keep)[a]])
  }

  /** The mask of the kept items keeps them all. */
  lemma SecondPassKeepsAll(r: Rule, vs: seq<Vector>, keep: seq<bool>)
    requires IsMask(r, vs, keep)
    ensures IsMask(r, Kept(vs, keep), seq(|Kept(vs, keep)|, a => true))
  {
    PlacesAscend(keep);
    var ks, all, at := Kept(vs, keep), seq(|Kept(vs, keep)|, a => true), Places(keep);
    forall a, b | 0 <= b < a < |ks|
      ensures SameLength(ks[a], ks[b]) && !Near(r, ks[a], ks[b])
    {
      KeptAreApart(r, vs, keep, at[a], at[b]);
    }
    forall a | 0 <= a < |ks|
      ensures Settled(r, ks, all, a)
    {
    }
  }

  // ---- the loops ---------------------------------------------------------------------------------------

  method Units(r: Rule, vs: seq<Vector>) returns (units: seq<Vector>)
    ensures |units| == |vs| && forall i | 0 <= i < |vs| :: units[i] == Unit(r.sqrt, vs[i])
  {
    units := [];
    for i := 0 to |vs|
      invariant |units| == i && forall k | 0 <= k < i :: units[k] == Unit(r.sqrt, vs[k])
    {
      units := units + [Unit(r.sqrt, vs[i])];
    }
  }

  /** Compares item `i` with the kept ones in order, up to the first that is near it or cannot be compared. */
  method IsDuplicate(r: Rule, units: seq<Vector>, i: nat, kept: seq<nat>, ghost vs: seq<Vector>, ghost keep: seq<bool>)
    returns (dup: Result<bool, Error>)
    requires |units| == |vs| && forall k | 0 <= k < |vs| :: units[k] == Unit(r.sqrt, vs[k])
    requires i == |keep| < |vs| && kept == Places(keep)
    ensures dup.Err? <==> Clashes(r, vs, keep)
    ensures dup.Ok? ==> (dup.value <==> HitBefore(r, vs, keep, i, i))
  {
    PlacesAscend(keep);
    PlacesAreAll(keep);
    for a := 0 to |kept|
      invariant forall b | 0 <= b < a :: SameLength(vs[i], vs[kept[b]]) && !Near(r, vs[i], vs[kept[b]])
    {
      var j := kept[a];
      NoHitYet(r, vs, keep, i, a);
      if |units[i].xs| != |units[j].xs| {
        assert Compared(r, vs, keep, i, j);
        return Err(LengthMismatch);
      }
      if Dot(units[i].xs, units[j].xs) > r.threshold {
        assert keep[j] && Near(r, vs[i], vs[j]);
        LaterAreNotCompared(r, vs, keep, i, a);
        return Ok(true);
      }
    }
    dup := Ok(false);
  }

  lemma {:induction false} PlacesAreAll(keep: seq<bool>)
    ensures forall j | 0 <= j < |keep| && keep[j] :: exists a | 0 <= a < |Places(keep)| :: Places(keep)[a] == j
  {
    if keep != [] {
      var n := |keep| - 1;
      PlacesAreAll(keep[..n]);
      forall j | 0 <= j < |keep| && keep[j]
        ensures exists a | 0 <= a < |Places(keep)| :: Places(keep)[a] == j
      {
        if j < n {
          assert keep[..n][j];
          var a :| 0 <= a < |Places(keep[..n])| && Places(keep[..n])[a] == j;
          assert Places(keep)[a] == j;
        } else {
          assert Places(keep)[|Places(keep)| - 1] == j;
        }
      }
    }
  }

  /** Nothing near among the first kept items: no hit before the next one. */
  lemma NoHitYet(r: Rule, vs: seq<Vector>, keep: seq<bool>, i: nat, a: nat)
    requires i == |keep| < |vs| && a < |Places(keep)| && Places(keep)[a] < |keep|
    requires forall b | 0 <= b < a :: Places(keep)[b] < |vs| && !Near(r, vs[i], vs[Places(keep)[b]])
    ensures !HitBefore(r, vs, keep, i, Places(keep)[a])
  {
    PlacesAscend(keep);
    PlacesAreAll(keep);
    var j := Places(keep)[a];
    forall k | 0 <= k < j && keep[k]
      ensures !Near(r, vs[i], vs[k])
    {
      var b :| 0 <= b < |Places(keep)| && Places(keep)[b] == k;
      assert b < a;
    }
  }

  /** Once a kept item is near, those after it are not looked at; those before it were comparable. */
  lemma LaterAreNotCompared(r: Rule, vs: seq<Vector>, keep: seq<bool>, i: nat, a: nat)
    requires i == |keep| < |vs| && a < |Places(keep)| && Places(keep)[a] < |keep|
    requires keep[Places(keep)[a]] && Near(r, vs[i], vs[Places(keep)[a]])
    requires forall b | 0 <= b < a :: Places(keep)[b] < |vs| && SameLength(vs[i], vs[Places(keep)[b]])
    ensures forall j | 0 <= j < i && Compared(r, vs, keep, i, j) :: SameLength(vs[i], vs[j])
  {
    PlacesAscend(keep);
    PlacesAreAll(keep);
    forall j | 0 <= j < i && Compared(r, vs, keep, i, j)
      ensures SameLength(vs[i], vs[j])
    {
      var b :| 0 <= b < |Places(keep)| && Places(keep)[b] == j;
      assert b <= a;
    }
  }

  lemma OneMore(r: Rule, vs: seq<Vector>, keep: seq<bool>, k: bool)
    requires IsGreedy(r, vs, keep) && |keep| < |vs|
    requires k <==> !HitBefore(r, vs, keep, |keep|, |keep|)
    requires forall j | 0 <= j < |keep| && Compared(r, vs, keep, |keep|, j) :: SameLength(vs[|keep|], vs[j])
    ensures IsGreedy(r, vs, keep + [k])
  {
    var more := keep + [k];
    forall i | 0 <= i < |more|
      ensures Settled(r, vs, more, i)
    {
      assert i < |keep| ==> Settled(r, vs, keep, i);
      forall j | 0 <= j <= i
        ensures HitBefore(r, vs, more, i, j) <==> HitBefore(r, vs, keep, i, j)
      {
        assert forall m | 0 <= m < j :: more[m] == keep[m];
      }
    }
  }

  lemma ClashUnsettles(r: Rule, vs: seq<Vector>, keep: seq<bool>, j: nat, mask: seq<bool>)
    requires j < |keep| < |mask| == |vs| && forall i | 0 <= i < |keep| :: keep[i] == mask[i]
    requires Compared(r, vs, keep, |keep|, j) && !SameLength(vs[|keep|], vs[j])
    ensures !Settled(r, vs, mask, |keep|)
  {
    assert Compared(r, vs, mask, |keep|, j);
  }

  /** A comparison that is made and not defined rules every mask out. */
  lemma ClashRulesOut(r: Rule, vs: seq<Vector>, keep: seq<bool>, j: nat, mask: seq<bool>)
    requires IsGreedy(r, vs, keep) && j < |keep| < |vs|
    requires Compared(r, vs, keep, |keep|, j) && !SameLength(vs[|keep|], vs[j])
    ensures !IsMask(r, vs, mask)
  {
    if IsMask(r, vs, mask) {
      GreedyIsUnique(r, vs, keep, mask, |keep|);
      ClashUnsettles(r, vs, keep, j, mask);
    }
  }

  /** The next item cannot be settled: a comparison it takes is not defined. */
  ghost predicate Clashes(r: Rule, vs: seq<Vector>, keep: seq<bool>)
    requires |keep| < |vs|
  {
    exists j | 0 <= j < |keep| :: Compared(r, vs, keep, |keep|, j) && !SameLength(vs[|keep|], vs[j])
  }

  ghost predicate NoMask(r: Rule, vs: seq<Vector>) {
    forall mask :: !IsMask(r, vs, mask)
  }

  ghost predicate MixedLengths(vs: seq<Vector>) {
    exists i, j | 0 <= j < i < |vs| :: !SameLength(vs[i], vs[j])
  }

  lemma ClashMeansNoMask(r: Rule, vs: seq<Vector>, keep: seq<bool>)
    requires |keep| < |vs| && IsGreedy(r, vs, keep) && Clashes(r, vs, keep)
    ensures NoMask(r, vs) && MixedLengths(vs)
  {
    var j :| 0 <= j < |keep| && Compared(r, vs, keep, |keep|, j) && !SameLength(vs[|keep|], vs[j]);
    forall mask
      ensures !IsMask(r, vs, mask)
    {
      ClashRulesOut(r, vs, keep, j, mask);
    }
  }

  /** Settling the next item extends the mask and the list of places kept. */
  lemma Settle(r: Rule, vs: seq<Vector>, keep: seq<bool>, k: bool)
    requires IsGreedy(r, vs, keep) && |keep| < |vs| && !Clashes(r, vs, keep)
    requires k <==> !HitBefore(r, vs, keep, |keep|, |keep|)
    ensures IsGreedy(r, vs, keep + [k])
    ensures Places(keep + [k]) == if k then Places(keep) + [|keep|] else Places(keep)
  {
    OneMore(r, vs, keep, k);
    assert (keep + [k])[..|keep|] == keep;
  }

  /** The mask, if the comparisons it takes are all defined; otherwise no mask exists and an error is raised. */
  method NearDuplicateMask(r: Rule, vs: seq<Vector>) returns (mask: Result<seq<bool>, Error>)
    ensures mask.Ok? ==> IsMask(r, vs, mask.value)
    ensures mask.Err? ==> NoMask(r, vs) && MixedLengths(vs)
  {
    var units := Units(r, vs);
    var keep: seq<bool>, kept: seq<nat> := [], [];
    for i := 0 to |vs|
      invariant |keep| == i && IsGreedy(r, vs, keep) && kept == Places(keep)
    {
      var dup := IsDuplicate(r, units, i, kept, vs, keep);
      if dup.Err? {
        ClashMeansNoMask(r, vs, keep);
        return Err(LengthMismatch);
      }
      Settle(r, vs, keep, !dup.value);
      keep := keep + [!dup.value];
      if !dup.value {
        kept := kept + [i];
      }
    }
    mask := Ok(keep);
  }

  // ---- what the comparison means -----------------------------------------------------------------------

  lemma ScaledTerm(p: real, q: real, m: real, n: real)
    ensures (p * q) * (m * n) == (p * m) * (q * n)
  {
  }

  /** One more coordinate, each side divided by its length: from `sum` to `sum'`, from `total` to `total'`. */
  lemma ScaledStep(sum: real, sum': real, total: real, total': real, p: real, q: real, x: real, y: real,
      m: real, n: real, d: real)
    requires d == m * n && p * m == x && q * n == y && sum * d == total
    requires sum' == sum + p * q && total' == total + x * y
    ensures sum' * d == total'
  {
    ScaledTerm(p, q, m, n);
    assert (sum + p * q) * d == sum * d + (p * q) * d;
  }

  /** Every coordinate of `s` times `m` is that of `a`. */
  ghost predicate Scaled(s: seq<real>, m: real, a: seq<real>) {
    |s| == |a| && forall i | 0 <= i < |a| :: s[i] * m == a[i]
  }

  /** Dividing both vectors divides their inner product; `d` is the product of the divisors. */
  lemma {:induction false} DotOfScaled(s: seq<real>, t: seq<real>, a: seq<real>, b: seq<real>,
      m: real, n: real, d: real, k: nat)
    requires Scaled(s, m, a) && Scaled(t, n, b) && d == m * n && k <= |a| && k <= |b|
    ensures DotUpto(s, t, k) * d == DotUpto(a, b, k)
  {
    if k > 0 {
      var i := k - 1;
      DotOfScaled(s, t, a, b, m, n, d, i);
      ScaledStep(DotUpto(s, t, i), DotUpto(s, t, k), DotUpto(a, b, i), DotUpto(a, b, k),
        s[i], t[i], a[i], b[i], m, n, d);
    }
  }

  lemma UnitIsScaled(sqrt: real -> real, v: Vector)
    ensures Scaled(Unit(sqrt, v).xs, Norm(sqrt, v), v.xs)
  {
  }

  lemma Above(q: real, x: real, d: real, t: real)
    requires d > 0.0 && q * d == x
    ensures q > t <==> x > t * d
  {
    if q > t {
      assert (q - t) * d > 0.0;
    } else {
      assert (t - q) * d >= 0.0;
    }
  }

  lemma ProductIsPositive(m: real, n: real)
    requires m > 0.0 && n > 0.0
    ensures m * n > 0.0
  {
  }

  lemma ScaledAbove(s: seq<real>, t: seq<real>, a: seq<real>, b: seq<real>, m: real, n: real, d: real, bound: real)
    requires |a| == |b| && Scaled(s, m, a) && Scaled(t, n, b) && d == m * n && d > 0.0
    ensures Dot(s, t) > bound <==> Dot(a, b) > bound * d
  {
    DotOfScaled(s, t, a, b, m, n, d, |a|);
    Above(Dot(s, t), Dot(a, b), d, bound);
  }

  lemma NormIsPositive(sqrt: real -> real, v: Vector)
    requires forall x :: sqrt(x) >= 0.0
    ensures Norm(sqrt, v) > 0.0
  {
  }

  /** The inner product adds up the products of the coordinates. */
  lemma {:induction false} DotAdds(a: seq<real>, b: seq<real>, c: seq<real>, d: seq<real>)
    requires |a| == |b| && |c| == |d|
    ensures Dot(a + c, b + d) == Dot(a, b) + Dot(c, d)
    ensures |a| == 1 ==> Dot(a, b) == a[0] * b[0]
    decreases |c|
  {
    if |a| == 1 {
      assert DotUpto(a, b, 0) == 0.0;
    }
    if c == [] {
      assert a + c == a && b + d == b;
    } else {
      var n := |c| - 1;
      DotAdds(a, b, c[..n], d[..n]);
      DotPrefix(a + c, a + c[..n], b + d, b + d[..n], |a| + n);
      DotPrefix(c, c[..n], d, d[..n], n);
    }
  }

  lemma {:induction false} DotPrefix(a: seq<real>, a': seq<real>, b: seq<real>, b': seq<real>, k: nat)
    requires k <= |a| && k <= |a'| && k <= |b| && k <= |b'|
    requires forall i | 0 <= i < k :: a[i] == a'[i] && b[i] == b'[i]
    ensures DotUpto(a, b, k) == DotUpto(a', b', k)
  {
    if k > 0 {
      DotPrefix(a, a', b, b', k - 1);
    }
  }

  /** A vector's length as the comparison takes it: the root of its product with itself, and one for the zero vector. */
  lemma NormMeans(sqrt: real -> real, v: Vector)
    requires forall x | x >= 0.0 :: sqrt(x) >= 0.0 && sqrt(x) * sqrt(x) == x
    ensures Dot(v.xs, v.xs) != 0.0 ==> Norm(sqrt, v) > 0.0 && Norm(sqrt, v) * Norm(sqrt, v) == Dot(v.xs, v.xs)
    ensures Dot(v.xs, v.xs) == 0.0 ==> Norm(sqrt, v) == 1.0
  {
    SquareIsNotNegative(v.xs, |v.xs|);
    RootOfSquare(sqrt(Dot(v.xs, v.xs)), Dot(v.xs, v.xs));
  }

  lemma RootOfSquare(n: real, x: real)
    requires n >= 0.0 && n * n == x
    ensures n == 0.0 <==> x == 0.0
  {
    if n > 0.0 {
      ProductOf(n, n, x);
    }
  }

  lemma ProductOf(m: real, n: real, x: real)
    requires m > 0.0 && n > 0.0 && m * n == x
    ensures x > 0.0
  {
    assert x > 0.0 * n;
  }

  /** A product of a vector with itself is never negative. */
  lemma {:induction false} SquareIsNotNegative(a: seq<real>, k: nat)
    requires k <= |a|
    ensures DotUpto(a, a, k) >= 0.0
  {
    if k > 0 {
      SquareIsNotNegative(a, k - 1);
    }
  }

  /** Near means what the docstring says: the inner product exceeds the threshold times both lengths. */
  lemma NearIsCosine(r: Rule, v: Vector, w: Vector)
    requires forall x :: r.sqrt(x) >= 0.0
    ensures Near(r, v, w) <==>
      SameLength(v, w) && Dot(v.xs, w.xs) > r.threshold * (Norm(r.sqrt, v) * Norm(r.sqrt, w))
  {
    var m, n := Norm(r.sqrt, v), Norm(r.sqrt, w);
    NormIsPositive(r.sqrt, v);
    NormIsPositive(r.sqrt, w);
    ProductIsPositive(m, n);
    UnitIsScaled(r.sqrt, v);
    UnitIsScaled(r.sqrt, w);
    if SameLength(v, w) {
      ScaledAbove(Unit(r.sqrt, v).xs, Unit(r.sqrt, w).xs, v.xs, w.xs, m, n, m * n, r.threshold);
    }
  }
}
