/**
 * The time-evolving multipole expansion (`mpetd_*`): every coefficient pair
 * (alm[i], blm[i]) is a polynomial in t whose coefficients sit in `pars`
 * after a header of degrees, mass and scale; the pairs are evaluated in the
 * triangular (l, m) order with a running offset `k_stride` and then handed
 * to the static helpers as an inner expansion.
 */
module MultipoleEtd {
  import opened MultipoleLayout
  import opened Multipole

  // ------------------------------------------------------------ polynomial

  function Pow(t: real, k: nat): real {
    if k == 0 then 1.0 else t * Pow(t, k - 1)
  }

  /** The sum of cs[k] * t^k for k < |cs|, added lowest power first. */
  function PolyValue(t: real, cs: seq<real>): real {
    if |cs| == 0 then 0.0 else PolyValue(t, cs[..|cs| - 1]) + cs[|cs| - 1] * Pow(t, |cs| - 1)
  }

  /** Horner's rule, an independent definition of the same polynomial. */
  function Horner(t: real, cs: seq<real>): real {
    if |cs| == 0 then 0.0 else cs[0] + t * Horner(t, cs[1..])
  }

  /** Peeling the constant term off the power sum leaves t times the shifted polynomial. */
  lemma {:induction false} PolyShift(t: real, cs: seq<real>)
    requires |cs| > 0
    ensures PolyValue(t, cs) == cs[0] + t * PolyValue(t, cs[1..])
  {
    var n := |cs|;
    if n == 1 {
      assert cs[1..] == [];
    } else {
      var init, last, tail := cs[..n - 1], cs[n - 1], cs[1..];
      PolyShift(t, init);
      assert init[1..] == tail[..n - 2] && tail[n - 2] == last && init[0] == cs[0];
      Combine(t, cs[0], PolyValue(t, init[1..]), last, Pow(t, n - 2),
              PolyValue(t, init), PolyValue(t, tail), Pow(t, n - 1));
    }
  }

  /** The distributive step of PolyShift, on plain reals. */
  lemma Combine(t: real, c0: real, a: real, last: real, p: real, x: real, y: real, z: real)
    requires x == c0 + t * a && y == a + last * p && z == t * p
    ensures x + last * z == c0 + t * y
  {
  }

  /** The power sum `mpetd_polynomial` computes agrees with Horner's rule on every input. */
  lemma {:induction false} PolyValueIsHorner(t: real, cs: seq<real>)
    ensures PolyValue(t, cs) == Horner(t, cs)
  {
    if |cs| > 0 {
      PolyShift(t, cs);
      PolyValueIsHorner(t, cs[1..]);
    }
  }

  /** At t = 0 only the constant coefficient survives. */
  lemma PolyAtZero(cs: seq<real>)
    requires |cs| > 0
    ensures PolyValue(0.0, cs) == cs[0]
  {
    PolyShift(0.0, cs);
  }

  /** A polynomial of degree 1 (one coefficient) does not depend on t. */
  lemma PolyConstant(t: real, cs: seq<real>)
    requires |cs| == 1
    ensures PolyValue(t, cs) == cs[0]
  {
    PolyShift(t, cs);
    assert cs[1..] == [];
  }

  /**
   * `mpetd_polynomial(t, &c[start], deg)`: the loop `val += c[k] * t^k` for
   * k < deg; a degree of 0 or below runs no iteration and reads nothing.
   */
  method Polynomial(t: real, c: array<real>, start: nat, deg: int) returns (v: real)
    requires deg <= 0 || start + deg <= c.Length
    ensures deg <= 0 ==> v == 0.0
    ensures deg > 0 ==> v == PolyValue(t, c[start..start + deg])
  {
    v := 0.0;
    var k := 0;
    while k < deg
      invariant 0 <= k && (deg > 0 ==> k <= deg)
      invariant deg <= 0 ==> v == 0.0
      invariant deg > 0 ==> v == PolyValue(t, c[start..start + k])
    {
      assert c[start..start + k + 1][..k] == c[start..start + k];
      v := v + c[start + k] * Pow(t, k);
      k := k + 1;
    }
  }

  // ----------------------------------------------------------- etd layout

  /**
   * `pars` of the time-dependent functions: G, lmax, num_coeff, then
   * num_coeff degrees deg_a, num_coeff degrees deg_b, M, r_s, and from
   * slot 2*num_coeff + 5 on the polynomial coefficients, pair after pair.
   */
  function DegASlot(i: nat): nat { 3 + i }
  function DegBSlot(nc: nat, i: nat): nat { 3 + nc + i }
  function EtdMassSlot(nc: nat): nat { 2 * nc + 3 }
  function EtdScaleSlot(nc: nat): nat { 2 * nc + 4 }
  function DataStart(nc: nat): nat { 2 * nc + 5 }

  /** The header through r_s is present for a count nc. */
  predicate HeaderPresent(pars: seq<real>, nc: nat) {
    |pars| >= DataStart(nc)
  }

  function DegA(pars: seq<real>, nc: nat, i: nat): int
    requires HeaderPresent(pars, nc) && i < nc
  {
    Trunc(pars[DegASlot(i)])
  }

  function DegB(pars: seq<real>, nc: nat, i: nat): int
    requires HeaderPresent(pars, nc) && i < nc
  {
    Trunc(pars[DegBSlot(nc, i)])
  }

  /** `k_stride` when the walk reaches counter n: the data start plus all earlier degrees. */
  function Stride(pars: seq<real>, nc: nat, n: nat): int
    requires HeaderPresent(pars, nc) && n <= nc
  {
    if n == 0 then DataStart(nc) else Stride(pars, nc, n - 1) + DegA(pars, nc, n - 1) + DegB(pars, nc, n - 1)
  }

  predicate DegreesNonNegative(pars: seq<real>, nc: nat)
    requires HeaderPresent(pars, nc)
  {
    forall i :: 0 <= i < nc ==> DegA(pars, nc, i) >= 0 && DegB(pars, nc, i) >= 0
  }

  /** The count stored in `pars[2]`, where it is a valid count. */
  function Count(pars: seq<real>): nat
    requires |pars| > NumCoeffSlot && Trunc(pars[NumCoeffSlot]) >= 0
  {
    Trunc(pars[NumCoeffSlot])
  }

  /** What the time-dependent entry points read from `pars`; the code checks none of it. */
  predicate EtdLayout(pars: seq<real>) {
    && |pars| > NumCoeffSlot
    && Trunc(pars[LmaxSlot]) >= 0
    && Trunc(pars[NumCoeffSlot]) == NumCoeff(Trunc(pars[LmaxSlot]))
    && HeaderPresent(pars, Count(pars))
    && DegreesNonNegative(pars, Count(pars))
    && Stride(pars, Count(pars), Count(pars)) <= |pars|
  }

  lemma {:induction false} StrideMonotone(pars: seq<real>, nc: nat, a: nat, b: nat)
    requires HeaderPresent(pars, nc) && DegreesNonNegative(pars, nc)
    requires a <= b <= nc
    ensures Stride(pars, nc, a) <= Stride(pars, nc, b)
  {
    if a < b {
      StrideMonotone(pars, nc, a, b - 1);
    }
  }

  /**
   * The coefficient block of pair i is pars[Stride(i) .. Stride(i + 1)):
   * every block lies after the header (degrees, M, r_s) and inside `pars`.
   */
  lemma BlockInBounds(pars: seq<real>, i: nat)
    requires EtdLayout(pars) && i < Count(pars)
    ensures DataStart(Count(pars)) <= Stride(pars, Count(pars), i)
    ensures Stride(pars, Count(pars), i) + DegA(pars, Count(pars), i) <= Stride(pars, Count(pars), i + 1)
    ensures Stride(pars, Count(pars), i + 1) <= |pars|
  {
    var nc := Count(pars);
    StrideMonotone(pars, nc, 0, i);
    StrideMonotone(pars, nc, i + 1, nc);
  }

  /** Blocks come in walk order and never overlap: block i ends where or before block j starts. */
  lemma BlocksDisjoint(pars: seq<real>, i: nat, j: nat)
    requires EtdLayout(pars) && i < j < Count(pars)
    ensures Stride(pars, Count(pars), i + 1) <= Stride(pars, Count(pars), j)
  {
    StrideMonotone(pars, Count(pars), i + 1, j);
  }

  /** alm[i] at time t: the deg_a[i] coefficients at the start of block i. */
  function AlmAt(t: real, pars: seq<real>, i: nat): real
    requires EtdLayout(pars) && i < Count(pars)
  {
    BlockInBounds(pars, i);
    var s := Stride(pars, Count(pars), i);
    PolyValue(t, pars[s..s + DegA(pars, Count(pars), i)])
  }

  /** blm[i] at time t: the deg_b[i] coefficients after those of alm[i]. */
  function BlmAt(t: real, pars: seq<real>, i: nat): real
    requires EtdLayout(pars) && i < Count(pars)
  {
    BlockInBounds(pars, i);
    var s := Stride(pars, Count(pars), i) + DegA(pars, Count(pars), i);
    PolyValue(t, pars[s..Stride(pars, Count(pars), i + 1)])
  }

  function Alm(t: real, pars: seq<real>): (a: seq<real>)
    requires EtdLayout(pars)
    ensures |a| == Count(pars) && forall i :: 0 <= i < |a| ==> a[i] == AlmAt(t, pars, i)
  {
    seq(Count(pars), i requires 0 <= i < Count(pars) => AlmAt(t, pars, i))
  }

  function Blm(t: real, pars: seq<real>): (b: seq<real>)
    requires EtdLayout(pars)
    ensures |b| == Count(pars) && forall i :: 0 <= i < |b| ==> b[i] == BlmAt(t, pars, i)
  {
    seq(Count(pars), i requires 0 <= i < Count(pars) => BlmAt(t, pars, i))
  }

  /** The degree copy loop `deg_a[i] = (int)pars[3 + i]; deg_b[i] = (int)pars[3 + nc + i]`. */
  method UnpackDegrees(pars: array<real>, nc: nat) returns (degA: array<int>, degB: array<int>)
    requires HeaderPresent(pars[..], nc)
    ensures fresh(degA) && fresh(degB) && degA != degB
    ensures degA.Length == nc && degB.Length == nc
    ensures forall i :: 0 <= i < nc ==> degA[i] == DegA(pars[..], nc, i) && degB[i] == DegB(pars[..], nc, i)
  {
    degA := new int[nc];
    degB := new int[nc];
    for i := 0 to nc
      invariant forall j :: 0 <= j < i ==> degA[j] == DegA(pars[..], nc, j) && degB[j] == DegB(pars[..], nc, j)
    {
      degA[i] := Trunc(pars[DegASlot(i)]);
      degB[i] := Trunc(pars[DegBSlot(nc, i)]);
    }
  }

  /**
   * Pair i's coefficient blocks: deg_a[i] coefficients from k_stride for
   * alm[i], then deg_b[i] for blm[i], and the next pair's k_stride after both.
   */
  lemma PairBlocks(t: real, pars: seq<real>, i: nat)
    requires EtdLayout(pars) && i < Count(pars)
    ensures var nc := Count(pars);
      var s, da, db := Stride(pars, nc, i), DegA(pars, nc, i), DegB(pars, nc, i);
      && 0 <= s && 0 <= da && 0 <= db && s + da + db == Stride(pars, nc, i + 1) <= |pars|
      && AlmAt(t, pars, i) == PolyValue(t, pars[s..s + da])
      && BlmAt(t, pars, i) == PolyValue(t, pars[s + da..s + da + db])
  {
    BlockInBounds(pars, i);
  }

  /**
   * The two `mpetd_polynomial` calls of one pair: a block of degA coefficients
   * at `start` and the block of degB right after it. P is the contents of `pars`.
   */
  method PairValues(t: real, pars: array<real>, ghost P: seq<real>, start: nat, degA: nat, degB: nat)
    returns (a: real, b: real)
    requires pars[..] == P && start + degA + degB <= |P|
    ensures a == PolyValue(t, P[start..start + degA])
    ensures b == PolyValue(t, P[start + degA..start + degA + degB])
  {
    a := Polynomial(t, pars, start, degA);
    assert pars[start..start + degA] == P[start..start + degA];
    b := Polynomial(t, pars, start + degA, degB);
    assert pars[start + degA..start + degA + degB] == P[start + degA..start + degA + degB];
  }

  /**
   * One step of the (l, m) loop: alm[i] and blm[i] from the blocks at
   * k_stride, which then moves past both. P is the contents of `pars` and nc
   * its coefficient count.
   */
  method FillPair(t: real, pars: array<real>, ghost P: seq<real>, nc: nat, degA: int, degB: int,
                  alm: array<real>, blm: array<real>, i: nat, kStride: int) returns (next: int)
    requires pars[..] == P && EtdLayout(P) && nc == Count(P) && i < nc
    requires degA == DegA(P, nc, i) && degB == DegB(P, nc, i)
    requires kStride == Stride(P, nc, i)
    requires i < alm.Length && i < blm.Length && alm != blm
    modifies alm, blm
    ensures alm[i] == AlmAt(t, P, i) && blm[i] == BlmAt(t, P, i)
    ensures next == Stride(P, nc, i + 1)
    ensures forall j :: 0 <= j < alm.Length && j != i ==> alm[j] == old(alm[j])
    ensures forall j :: 0 <= j < blm.Length && j != i ==> blm[j] == old(blm[j])
  {
    PairBlocks(t, P, i);
    var a, b := PairValues(t, pars, P, kStride, degA, degB);
    alm[i] := a;
    blm[i] := b;
    next := kStride + degA + degB;
  }

  /** Row l of the (l, m) loop: the pairs (l, 0) .. (l, l) at counters Tri(l) .. Tri(l + 1) - 1. */
  method FillRow(t: real, pars: array<real>, ghost P: seq<real>, nc: nat, degA: array<int>, degB: array<int>,
                 alm: array<real>, blm: array<real>, l: nat, kStride: int) returns (next: int)
    requires pars[..] == P && EtdLayout(P) && nc == Count(P) && Tri(l + 1) <= nc
    requires degA.Length == nc && degB.Length == nc
    requires forall i :: 0 <= i < nc ==> degA[i] == DegA(P, nc, i) && degB[i] == DegB(P, nc, i)
    requires kStride == Stride(P, nc, Tri(l))
    requires alm.Length == nc && blm.Length == nc
    requires alm != blm && pars != alm && pars != blm
    requires degA != degB
    modifies alm, blm
    ensures next == Stride(P, nc, Tri(l + 1))
    ensures forall j :: Tri(l) <= j < Tri(l + 1) ==> alm[j] == AlmAt(t, P, j) && blm[j] == BlmAt(t, P, j)
    ensures forall j :: 0 <= j < nc && !(Tri(l) <= j < Tri(l + 1)) ==> alm[j] == old(alm[j]) && blm[j] == old(blm[j])
  {
    var i := Tri(l);
    next := kStride;
    for m := 0 to l + 1
      invariant i == Tri(l) + m
      invariant next == Stride(P, nc, i)
      invariant forall j :: Tri(l) <= j < i ==> alm[j] == AlmAt(t, P, j) && blm[j] == BlmAt(t, P, j)
      invariant forall j :: 0 <= j < nc && !(Tri(l) <= j < i) ==> alm[j] == old(alm[j]) && blm[j] == old(blm[j])
    {
      next := FillPair(t, pars, P, nc, degA[i], degB[i], alm, blm, i, next);
      i := i + 1;
    }
  }

  /**
   * The (l, m) loop of `mpetd_potential` / `mpetd_gradient`: counter i and
   * offset k_stride advance together over the coefficient blocks, row by row.
   */
  method TimeCoefficients(t: real, pars: array<real>, ghost P: seq<real>, nc: nat, lmax: nat,
                          degA: array<int>, degB: array<int>)
    returns (alm: array<real>, blm: array<real>)
    requires pars[..] == P && EtdLayout(P) && nc == Count(P) && lmax == Trunc(P[LmaxSlot])
    requires degA.Length == nc && degB.Length == nc && degA != degB
    requires forall i :: 0 <= i < nc ==> degA[i] == DegA(P, nc, i) && degB[i] == DegB(P, nc, i)
    ensures fresh(alm) && fresh(blm)
    ensures alm[..] == Alm(t, P) && blm[..] == Blm(t, P)
  {
    NumCoeffIsTri(lmax);
    alm := new real[nc];
    blm := new real[nc];
    FillRows(t, pars, P, nc, lmax, degA, degB, alm, blm);
  }

  /** The rows l = 0 .. lmax of the (l, m) loop, k_stride starting right after the header. */
  method FillRows(t: real, pars: array<real>, ghost P: seq<real>, nc: nat, lmax: nat,
                  degA: array<int>, degB: array<int>, alm: array<real>, blm: array<real>)
    requires pars[..] == P && EtdLayout(P) && nc == Count(P) && nc == Tri(lmax + 1)
    requires degA.Length == nc && degB.Length == nc && degA != degB
    requires forall i :: 0 <= i < nc ==> degA[i] == DegA(P, nc, i) && degB[i] == DegB(P, nc, i)
    requires alm.Length == nc && blm.Length == nc && alm != blm && pars != alm && pars != blm
    modifies alm, blm
    ensures forall j :: 0 <= j < nc ==> alm[j] == AlmAt(t, P, j) && blm[j] == BlmAt(t, P, j)
  {
    var kStride := 2 * nc + 5;
    for l := 0 to lmax + 1
      invariant Tri(l) <= nc
      invariant kStride == Stride(P, nc, Tri(l))
      invariant forall j :: 0 <= j < Tri(l) ==> alm[j] == AlmAt(t, P, j) && blm[j] == BlmAt(t, P, j)
    {
      TriMonotone(l + 1, lmax + 1);
      kStride := FillRow(t, pars, P, nc, degA, degB, alm, blm, l, kStride);
    }
  }

  // ---------------------------------------------------------- entry points

  /** The value `mpetd_potential` returns at time t: the coefficients at t, expanded as an inner series. */
  function EtdPotential(t: real, pars: seq<real>, pt: Point): real
    requires EtdLayout(pars) && pars[EtdScaleSlot(Count(pars))] != 0.0
  {
    var nc := Count(pars);
    PotentialAt(pt, pars[GSlot], pars[EtdMassSlot(nc)], pars[EtdScaleSlot(nc)], Alm(t, pars), Blm(t, pars),
                Trunc(pars[LmaxSlot]), 1)
  }

  /** What `mpetd_gradient` adds to `grad[0..2]` at time t. */
  function EtdGradient(t: real, pars: seq<real>, pt: Point): Vec3
    requires EtdLayout(pars) && pars[EtdScaleSlot(Count(pars))] != 0.0
  {
    var nc := Count(pars);
    GradientAt(pt, pars[GSlot], pars[EtdMassSlot(nc)], pars[EtdScaleSlot(nc)], Alm(t, pars), Blm(t, pars),
               Trunc(pars[LmaxSlot]), 1)
  }

  /**
   * The unpacking shared by `mpetd_potential` and `mpetd_gradient`: G, lmax,
   * the degrees, M and r_s from the header, and alm, blm evaluated at t.
   */
  method UnpackTimeDependent(t: real, pars: array<real>)
    returns (G: real, lmax: nat, M: real, rs: real, alm: array<real>, blm: array<real>)
    requires EtdLayout(pars[..])
    ensures fresh(alm) && fresh(blm)
    ensures G == pars[GSlot] && lmax == Trunc(pars[LmaxSlot])
    ensures M == pars[EtdMassSlot(Count(pars[..]))] && rs == pars[EtdScaleSlot(Count(pars[..]))]
    ensures alm[..] == Alm(t, pars[..]) && blm[..] == Blm(t, pars[..])
  {
    G := pars[GSlot];
    lmax := Trunc(pars[LmaxSlot]);
    var nc := Trunc(pars[NumCoeffSlot]);
    var degA, degB := UnpackDegrees(pars, nc);
    M := pars[2 * nc + 3];
    rs := pars[2 * nc + 4];
    alm, blm := TimeCoefficients(t, pars, pars[..], nc, lmax, degA, degB);
  }

  /** `mpetd_potential(t, pars, q, n_dim)`. */
  method MpetdPotential(t: real, pars: array<real>, pt: Point) returns (v: real)
    requires EtdLayout(pars[..]) && pars[EtdScaleSlot(Count(pars[..]))] != 0.0
    ensures v == EtdPotential(t, pars[..], pt)
  {
    var G, lmax, M, rs, alm, blm := UnpackTimeDependent(t, pars);
    var val := new real[1];
    val[0] := 0.0;
    PotentialHelper([pt], G, M, rs, alm, blm, lmax, 1, val);
    v := val[0];
  }

  /** `mpetd_gradient(t, pars, q, n_dim, grad)`: adds the gradient to the caller's `grad[0..2]`. */
  method MpetdGradient(t: real, pars: array<real>, pt: Point, grad: array<real>)
    requires EtdLayout(pars[..]) && pars[EtdScaleSlot(Count(pars[..]))] != 0.0
    requires grad.Length >= 3 && grad != pars
    modifies grad
    ensures var g := EtdGradient(t, pars[..], pt);
      grad[0] == old(grad[0]) + g.x && grad[1] == old(grad[1]) + g.y && grad[2] == old(grad[2]) + g.z
    ensures forall j :: 3 <= j < grad.Length ==> grad[j] == old(grad[j])
  {
    var G, lmax, M, rs, alm, blm := UnpackTimeDependent(t, pars);
    ghost var g := EtdGradient(t, pars[..], pt);
    assert g == GradientAt([pt][0], G, M, rs, alm[..], blm[..], lmax, 1);
    GradientHelper([pt], G, M, rs, alm, blm, lmax, 1, grad);
    assert pars[..] == old(pars[..]);
  }

  /** `mpetd_density`: the density is not implemented and is always 0; `pars` is not read. */
  method MpetdDensity(t: real, pars: array<real>, pt: Point) returns (rho: real)
    ensures rho == 0.0
  {
    var val := new real[1];
    val[0] := 0.0;
    rho := val[0];
  }

  // -------------------------------------------------------------- properties

  /** With every degree 0 no coefficient is read, every alm and blm is 0, and so is the potential. */
  lemma ZeroDegreesZeroPotential(t: real, pars: seq<real>, pt: Point)
    requires EtdLayout(pars) && pars[EtdScaleSlot(Count(pars))] != 0.0
    requires forall i :: 0 <= i < Count(pars) ==> DegA(pars, Count(pars), i) == 0 && DegB(pars, Count(pars), i) == 0
    ensures EtdPotential(t, pars, pt) == 0.0
  {
    var nc := Count(pars);
    var a, b := Alm(t, pars), Blm(t, pars);
    forall i | 0 <= i < nc ensures a[i] == 0.0 && b[i] == 0.0 {
      BlockInBounds(pars, i);
      var s := Stride(pars, nc, i);
      assert pars[s..s + DegA(pars, nc, i)] == [];
      assert Stride(pars, nc, i + 1) == s;
      assert pars[s + DegA(pars, nc, i)..Stride(pars, nc, i + 1)] == [];
    }
    ZeroCoefficientsZeroPotential(pt, pars[GSlot], pars[EtdMassSlot(nc)], pars[EtdScaleSlot(nc)], a, b,
                                  Trunc(pars[LmaxSlot]), 1);
  }

  /** With every degree 1 each coefficient is its one constant, so the expansion does not change with t. */
  lemma DegreeOneTimeIndependent(t: real, t': real, pars: seq<real>)
    requires EtdLayout(pars)
    requires forall i :: 0 <= i < Count(pars) ==> DegA(pars, Count(pars), i) == 1 && DegB(pars, Count(pars), i) == 1
    ensures Alm(t, pars) == Alm(t', pars) && Blm(t, pars) == Blm(t', pars)
  {
    var nc := Count(pars);
    forall i | 0 <= i < nc ensures AlmAt(t, pars, i) == AlmAt(t', pars, i) && BlmAt(t, pars, i) == BlmAt(t', pars, i) {
      BlockInBounds(pars, i);
      var s := Stride(pars, nc, i);
      PolyConstant(t, pars[s..s + 1]);
      PolyConstant(t', pars[s..s + 1]);
      PolyConstant(t, pars[s + 1..Stride(pars, nc, i + 1)]);
      PolyConstant(t', pars[s + 1..Stride(pars, nc, i + 1)]);
    }
  }

  /** At t = 0 each alm with a positive degree is the first coefficient of its block. */
  lemma AlmAtTimeZero(pars: seq<real>, i: nat)
    requires EtdLayout(pars) && i < Count(pars) && DegA(pars, Count(pars), i) > 0
    ensures var s := Stride(pars, Count(pars), i); 0 <= s < |pars| && AlmAt(0.0, pars, i) == pars[s]
  {
    BlockInBounds(pars, i);
    var s := Stride(pars, Count(pars), i);
    PolyAtZero(pars[s..s + DegA(pars, Count(pars), i)]);
  }
}
