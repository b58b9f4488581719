/**
 * The static multipole expansion: `mp_potential_helper` and
 * `mp_gradient_helper` accumulate one term per (l, m) coefficient pair with a
 * single running counter, and the entry points `mp_potential`,
 * `mp_gradient` and `mp_density` unpack their parameters from `pars`.
 *
 * The floating-point basis (Legendre functions, powers, sin, cos, atan2,
 * sqrt) is not modelled: a `Point` carries the values the C code would
 * compute for one evaluation position.
 */
module Multipole {
  import opened MultipoleLayout

  datatype Vec3 = Vec3(x: real, y: real, z: real) {
    function Add(o: Vec3): Vec3 {
      Vec3(x + o.x, y + o.y, z + o.z)
    }
  }

  /**
   * The floating-point quantities of one evaluation position q:
   * r = |q|; phiLm(l, m, inner) = mp_phi_lm(s, phi, X, l, m, inner);
   * cosm(m) = cos(m phi); sinm(m) = sin(m phi);
   * sphGrad(l, m, inner) = the three components mp_sph_grad_phi_lm writes;
   * invSSinTheta = 1 / (s sin theta); and sin theta, X = cos theta, cos phi,
   * sin phi for the Cartesian transform.
   */
  datatype Point = Point(
    r: real,
    phiLm: (nat, nat, int) -> real,
    cosm: nat -> real,
    sinm: nat -> real,
    sphGrad: (nat, nat, int) -> Vec3,
    invSSinTheta: real,
    sinTheta: real,
    cosTheta: real,
    cosPhi: real,
    sinPhi: real)

  predicate BothZero(S: seq<real>, T: seq<real>, i: nat)
    requires i < |S| && i < |T|
  {
    S[i] == 0.0 && T[i] == 0.0
  }

  /** The potential contribution of pair lm with coefficients sc = S_lm, tc = T_lm. */
  function PairPotential(pt: Point, sc: real, tc: real, inner: int, lm: (nat, nat)): real {
    pt.phiLm(lm.0, lm.1, inner) * (sc * pt.cosm(lm.1) + tc * pt.sinm(lm.1))
  }

  /** The potential term of pair lm at counter i; skipped (zero) when both coefficients vanish. */
  function Term(pt: Point, S: seq<real>, T: seq<real>, inner: int, i: nat, lm: (nat, nat)): real
    requires i < |S| && i < |T|
  {
    if BothZero(S, T, i) then 0.0 else PairPotential(pt, S[i], T[i], inner, lm)
  }

  /** Sum of the terms of the first n steps of the walk over rows 0..lmax. */
  function Accumulated(pt: Point, S: seq<real>, T: seq<real>, inner: int, lmax: nat, n: nat): real
    requires n <= Tri(lmax + 1) && n <= |S| && n <= |T|
  {
    if n == 0 then 0.0
    else Accumulated(pt, S, T, inner, lmax, n - 1) + Term(pt, S, T, inner, n - 1, Pairs(lmax + 1)[n - 1])
  }

  /** The same sum without the skip test: every pair's term is added. */
  function RawAccumulated(pt: Point, S: seq<real>, T: seq<real>, inner: int, lmax: nat, n: nat): real
    requires n <= Tri(lmax + 1) && n <= |S| && n <= |T|
  {
    if n == 0 then 0.0
    else RawAccumulated(pt, S, T, inner, lmax, n - 1) + PairPotential(pt, S[n - 1], T[n - 1], inner, Pairs(lmax + 1)[n - 1])
  }

  /**
   * `val[k]` after `mp_potential_helper` for one position: the slot is reset
   * to 0, the terms are summed, an `inner` expansion is cut to 0 at the
   * origin, and the sum is scaled by G*M/r_s.
   */
  function PotentialAt(pt: Point, G: real, M: real, rs: real, S: seq<real>, T: seq<real>,
                       lmax: nat, inner: int): real
    requires rs != 0.0
    requires |S| >= NumCoeff(lmax) && |T| >= NumCoeff(lmax)
  {
    NumCoeffIsTri(lmax);
    var sum := Accumulated(pt, S, T, inner, lmax, Tri(lmax + 1));
    (if pt.r == 0.0 && inner != 0 then 0.0 else sum) * (G * M / rs)
  }

  /**
   * Skipping a pair whose coefficients both vanish changes nothing: every
   * prefix of the skipping sum equals the plain sum of all terms.
   */
  lemma {:induction false} SkippedTermsAddNothing(pt: Point, S: seq<real>, T: seq<real>, inner: int, lmax: nat, n: nat)
    requires n <= Tri(lmax + 1) && n <= |S| && n <= |T|
    ensures Accumulated(pt, S, T, inner, lmax, n) == RawAccumulated(pt, S, T, inner, lmax, n)
  {
    if n > 0 {
      SkippedTermsAddNothing(pt, S, T, inner, lmax, n - 1);
      var i := n - 1;
      if BothZero(S, T, i) {
        var lm := Pairs(lmax + 1)[i];
        assert S[i] * pt.cosm(lm.1) + T[i] * pt.sinm(lm.1) == 0.0;
      }
    }
  }

  /** With every coefficient zero the potential is zero. */
  lemma ZeroCoefficientsZeroPotential(pt: Point, G: real, M: real, rs: real, S: seq<real>, T: seq<real>,
                                      lmax: nat, inner: int)
    requires rs != 0.0
    requires |S| >= NumCoeff(lmax) && |T| >= NumCoeff(lmax)
    requires forall i :: 0 <= i < |S| ==> S[i] == 0.0
    requires forall i :: 0 <= i < |T| ==> T[i] == 0.0
    ensures PotentialAt(pt, G, M, rs, S, T, lmax, inner) == 0.0
  {
    NumCoeffIsTri(lmax);
    AllSkipped(pt, S, T, inner, lmax, Tri(lmax + 1));
  }

  lemma {:induction false} AllSkipped(pt: Point, S: seq<real>, T: seq<real>, inner: int, lmax: nat, n: nat)
    requires n <= Tri(lmax + 1) && n <= |S| && n <= |T|
    requires forall i :: 0 <= i < n ==> BothZero(S, T, i)
    ensures Accumulated(pt, S, T, inner, lmax, n) == 0.0
  {
    if n > 0 {
      AllSkipped(pt, S, T, inner, lmax, n - 1);
    }
  }

  /** An inner expansion evaluated at the origin gives 0, whatever its coefficients. */
  lemma InnerOriginIsZero(pt: Point, G: real, M: real, rs: real, S: seq<real>, T: seq<real>,
                          lmax: nat, inner: int)
    requires rs != 0.0
    requires |S| >= NumCoeff(lmax) && |T| >= NumCoeff(lmax)
    requires pt.r == 0.0 && inner != 0
    ensures PotentialAt(pt, G, M, rs, S, T, lmax, inner) == 0.0
  {
  }

  /** Only the first NumCoeff(lmax) coefficients are read. */
  lemma {:induction false} OnlyListedCoefficientsRead(pt: Point, S: seq<real>, T: seq<real>, S': seq<real>, T': seq<real>,
                                                      inner: int, lmax: nat, n: nat)
    requires n <= Tri(lmax + 1) && n <= |S| && n <= |T| && n <= |S'| && n <= |T'|
    requires S[..n] == S'[..n] && T[..n] == T'[..n]
    ensures Accumulated(pt, S, T, inner, lmax, n) == Accumulated(pt, S', T', inner, lmax, n)
  {
    if n > 0 {
      assert S[..n - 1] == S[..n][..n - 1] && S'[..n - 1] == S'[..n][..n - 1];
      assert T[..n - 1] == T[..n][..n - 1] && T'[..n - 1] == T'[..n][..n - 1];
      assert S[n - 1] == S[..n][n - 1] && S'[n - 1] == S'[..n][n - 1];
      assert T[n - 1] == T[..n][n - 1] && T'[n - 1] == T'[..n][n - 1];
      OnlyListedCoefficientsRead(pt, S, T, S', T', inner, lmax, n - 1);
    }
  }

  // ------------------------------------------------------------- gradient

  /**
   * The spherical (r, theta, phi) gradient contribution of pair lm with
   * coefficients sc = S_lm, tc = T_lm: the radial and polar components of
   * mp_sph_grad_phi_lm scaled by S cos(m phi) + T sin(m phi), the azimuthal
   * one by (T cos(m phi) - S sin(m phi)) / (s sin theta).
   */
  function PairGradient(pt: Point, sc: real, tc: real, inner: int, lm: (nat, nat)): Vec3 {
    var tmp := sc * pt.cosm(lm.1) + tc * pt.sinm(lm.1);
    var g := pt.sphGrad(lm.0, lm.1, inner);
    Vec3(g.x * tmp, g.y * tmp, g.z * (tc * pt.cosm(lm.1) - sc * pt.sinm(lm.1)) * pt.invSSinTheta)
  }

  /** The gradient term of pair lm at counter i; skipped (zero) when both coefficients vanish. */
  function GradTerm(pt: Point, S: seq<real>, T: seq<real>, inner: int, i: nat, lm: (nat, nat)): Vec3
    requires i < |S| && i < |T|
  {
    if BothZero(S, T, i) then Vec3(0.0, 0.0, 0.0) else PairGradient(pt, S[i], T[i], inner, lm)
  }

  function GradAccumulated(pt: Point, S: seq<real>, T: seq<real>, inner: int, lmax: nat, n: nat): Vec3
    requires n <= Tri(lmax + 1) && n <= |S| && n <= |T|
  {
    if n == 0 then Vec3(0.0, 0.0, 0.0)
    else GradAccumulated(pt, S, T, inner, lmax, n - 1).Add(GradTerm(pt, S, T, inner, n - 1, Pairs(lmax + 1)[n - 1]))
  }

  /** The spherical-to-Cartesian transform of the gradient. */
  function ToCartesian(pt: Point, v: Vec3): Vec3 {
    Vec3(pt.sinTheta * pt.cosPhi * v.x + pt.cosTheta * pt.cosPhi * v.y - pt.sinPhi * v.z,
         pt.sinTheta * pt.sinPhi * v.x + pt.cosTheta * pt.sinPhi * v.y + pt.cosPhi * v.z,
         pt.cosTheta * v.x - pt.sinTheta * v.y)
  }

  /** What `mp_gradient_helper` adds to `grad[3k..3k+2]` for one position. */
  function GradientAt(pt: Point, G: real, M: real, rs: real, S: seq<real>, T: seq<real>,
                      lmax: nat, inner: int): Vec3
    requires rs != 0.0
    requires |S| >= NumCoeff(lmax) && |T| >= NumCoeff(lmax)
  {
    NumCoeffIsTri(lmax);
    var c := ToCartesian(pt, GradAccumulated(pt, S, T, inner, lmax, Tri(lmax + 1)));
    var k := G * M / (rs * rs);
    Vec3(c.x * k, c.y * k, c.z * k)
  }

  /** With every coefficient zero the gradient contribution is zero. */
  lemma ZeroCoefficientsZeroGradient(pt: Point, G: real, M: real, rs: real, S: seq<real>, T: seq<real>,
                                     lmax: nat, inner: int)
    requires rs != 0.0
    requires |S| >= NumCoeff(lmax) && |T| >= NumCoeff(lmax)
    requires forall i :: 0 <= i < |S| ==> S[i] == 0.0
    requires forall i :: 0 <= i < |T| ==> T[i] == 0.0
    ensures GradientAt(pt, G, M, rs, S, T, lmax, inner) == Vec3(0.0, 0.0, 0.0)
  {
    NumCoeffIsTri(lmax);
    GradAllSkipped(pt, S, T, inner, lmax, Tri(lmax + 1));
    var zero := Vec3(0.0, 0.0, 0.0);
    assert ToCartesian(pt, zero) == zero by {
      assert pt.sinTheta * pt.cosPhi * 0.0 == 0.0 && pt.cosTheta * pt.cosPhi * 0.0 == 0.0;
      assert pt.sinTheta * pt.sinPhi * 0.0 == 0.0 && pt.cosTheta * pt.sinPhi * 0.0 == 0.0;
    }
  }

  lemma {:induction false} GradAllSkipped(pt: Point, S: seq<real>, T: seq<real>, inner: int, lmax: nat, n: nat)
    requires n <= Tri(lmax + 1) && n <= |S| && n <= |T|
    requires forall i :: 0 <= i < n ==> BothZero(S, T, i)
    ensures GradAccumulated(pt, S, T, inner, lmax, n) == Vec3(0.0, 0.0, 0.0)
  {
    if n > 0 {
      GradAllSkipped(pt, S, T, inner, lmax, n - 1);
    }
  }

  // ------------------------------------------------------------- helpers

  /** One step of the walk: the counter Tri(l) + m visits pair (l, m). */
  lemma PotentialStep(pt: Point, S: seq<real>, T: seq<real>, inner: int, lmax: nat, l: nat, m: nat)
    requires m <= l <= lmax && Tri(lmax + 1) <= |S| && Tri(lmax + 1) <= |T|
    ensures Tri(l) + m < Tri(lmax + 1)
    ensures Accumulated(pt, S, T, inner, lmax, Tri(l) + m + 1)
         == Accumulated(pt, S, T, inner, lmax, Tri(l) + m) + Term(pt, S, T, inner, Tri(l) + m, (l, m))
  {
    PairsIndex(lmax + 1, l, m);
  }

  lemma AddZero(v: Vec3)
    ensures v.Add(Vec3(0.0, 0.0, 0.0)) == v
  {
  }

  lemma GradientStep(pt: Point, S: seq<real>, T: seq<real>, inner: int, lmax: nat, l: nat, m: nat)
    requires m <= l <= lmax && Tri(lmax + 1) <= |S| && Tri(lmax + 1) <= |T|
    ensures Tri(l) + m < Tri(lmax + 1)
    ensures GradAccumulated(pt, S, T, inner, lmax, Tri(l) + m + 1)
         == GradAccumulated(pt, S, T, inner, lmax, Tri(l) + m).Add(GradTerm(pt, S, T, inner, Tri(l) + m, (l, m)))
  {
    PairsIndex(lmax + 1, l, m);
  }

  /** Row l of the walk of `mp_potential_helper`: the terms of (l, 0) .. (l, l) are added to `val[k]` in place. */
  method AddRowTerms(pt: Point, slm: array<real>, tlm: array<real>, lmax: nat, inner: int,
                     val: array<real>, k: nat, l: nat, ghost start: real)
    requires l <= lmax && slm.Length >= Tri(lmax + 1) && tlm.Length >= Tri(lmax + 1)
    requires k < val.Length && val != slm && val != tlm
    requires Tri(l + 1) <= Tri(lmax + 1)
    requires val[k] == start + Accumulated(pt, slm[..], tlm[..], inner, lmax, Tri(l))
    modifies val
    ensures val[k] == start + Accumulated(pt, slm[..], tlm[..], inner, lmax, Tri(l + 1))
    ensures forall j :: 0 <= j < val.Length && j != k ==> val[j] == old(val[j])
  {
    ghost var S, T := slm[..], tlm[..];
    var i := Tri(l);
    for m := 0 to l + 1
      invariant i == Tri(l) + m
      invariant val[k] == start + Accumulated(pt, S, T, inner, lmax, i)
      invariant forall j :: 0 <= j < val.Length && j != k ==> val[j] == old(val[j])
    {
      PotentialStep(pt, S, T, inner, lmax, l, m);
      if slm[i] == 0.0 && tlm[i] == 0.0 {
        i := i + 1;
        continue;
      }
      val[k] := val[k] + PairPotential(pt, slm[i], tlm[i], inner, (l, m));
      i := i + 1;
    }
  }

  /**
   * The (l, m) walk of `mp_potential_helper` for one position: one counter
   * runs over the pairs, advancing also over skipped pairs, and the terms are
   * added to `val[k]` in place.
   */
  method AddPotentialTerms(pt: Point, slm: array<real>, tlm: array<real>, lmax: nat, inner: int,
                           val: array<real>, k: nat)
    requires slm.Length >= Tri(lmax + 1) && tlm.Length >= Tri(lmax + 1)
    requires k < val.Length && val != slm && val != tlm
    modifies val
    ensures val[k] == old(val[k]) + Accumulated(pt, slm[..], tlm[..], inner, lmax, Tri(lmax + 1))
    ensures forall j :: 0 <= j < val.Length && j != k ==> val[j] == old(val[j])
  {
    ghost var start := val[k];
    for l := 0 to lmax + 1
      invariant Tri(l) <= Tri(lmax + 1)
      invariant val[k] == start + Accumulated(pt, slm[..], tlm[..], inner, lmax, Tri(l))
      invariant forall j :: 0 <= j < val.Length && j != k ==> val[j] == old(val[j])
    {
      TriMonotone(l + 1, lmax + 1);
      AddRowTerms(pt, slm, tlm, lmax, inner, val, k, l, start);
    }
  }

  /**
   * `mp_potential_helper`: for each of the K = |pts| positions, reset
   * `val[k]` to 0, add the terms of the walk, cut an inner expansion to 0 at
   * the origin, and scale by G*M/r_s.
   */
  method PotentialHelper(pts: seq<Point>, G: real, M: real, rs: real, slm: array<real>, tlm: array<real>,
                         lmax: nat, inner: int, val: array<real>)
    requires rs != 0.0
    requires slm.Length >= NumCoeff(lmax) && tlm.Length >= NumCoeff(lmax)
    requires val.Length >= |pts| && val != slm && val != tlm
    modifies val
    ensures forall k :: 0 <= k < |pts| ==> val[k] == PotentialAt(pts[k], G, M, rs, slm[..], tlm[..], lmax, inner)
    ensures forall k :: |pts| <= k < val.Length ==> val[k] == old(val[k])
  {
    NumCoeffIsTri(lmax);
    for k := 0 to |pts|
      invariant forall j :: 0 <= j < k ==> val[j] == PotentialAt(pts[j], G, M, rs, slm[..], tlm[..], lmax, inner)
      invariant forall j :: k <= j < val.Length ==> val[j] == old(val[j])
    {
      var pt := pts[k];
      val[k] := 0.0;
      AddPotentialTerms(pt, slm, tlm, lmax, inner, val, k);
      if pt.r == 0.0 && inner != 0 {
        val[k] := 0.0;
      }
      val[k] := val[k] * (G * M / rs);
    }
  }

  /**
   * The body of the inner loop of `mp_gradient_helper` at pair (l, m),
   * counter i = l(l+1)/2 + m: a pair whose coefficients both vanish is
   * skipped (`continue`); otherwise its three spherical components are added.
   */
  method GradientPair(pt: Point, slm: array<real>, tlm: array<real>, lmax: nat, inner: int,
                      l: nat, m: nat, acc: Vec3) returns (next: Vec3)
    requires m <= l <= lmax && slm.Length >= Tri(lmax + 1) && tlm.Length >= Tri(lmax + 1)
    requires Tri(l + 1) <= Tri(lmax + 1)
    requires acc == GradAccumulated(pt, slm[..], tlm[..], inner, lmax, Tri(l) + m)
    ensures next == GradAccumulated(pt, slm[..], tlm[..], inner, lmax, Tri(l) + m + 1)
  {
    ghost var S, T := slm[..], tlm[..];
    GradientStep(pt, S, T, inner, lmax, l, m);
    var i := Tri(l) + m;
    if slm[i] == 0.0 && tlm[i] == 0.0 {
      AddZero(acc);
      return acc;
    }
    next := acc.Add(PairGradient(pt, slm[i], tlm[i], inner, (l, m)));
  }

  /** Row l of the walk of `mp_gradient_helper`: the spherical terms of (l, 0) .. (l, l) added to `acc`. */
  method GradientRow(pt: Point, slm: array<real>, tlm: array<real>, lmax: nat, inner: int, l: nat, acc: Vec3)
    returns (next: Vec3)
    requires l <= lmax && slm.Length >= Tri(lmax + 1) && tlm.Length >= Tri(lmax + 1)
    requires Tri(l + 1) <= Tri(lmax + 1)
    requires acc == GradAccumulated(pt, slm[..], tlm[..], inner, lmax, Tri(l))
    ensures next == GradAccumulated(pt, slm[..], tlm[..], inner, lmax, Tri(l + 1))
  {
    next := acc;
    for m := 0 to l + 1
      invariant next == GradAccumulated(pt, slm[..], tlm[..], inner, lmax, Tri(l) + m)
    {
      next := GradientPair(pt, slm, tlm, lmax, inner, l, m, next);
    }
  }

  /**
   * The (l, m) walk of `mp_gradient_helper` for one position: the spherical
   * components summed over the pairs, the counter advancing also over
   * skipped pairs.
   */
  method GradientTerms(pt: Point, slm: array<real>, tlm: array<real>, lmax: nat, inner: int) returns (acc: Vec3)
    requires slm.Length >= Tri(lmax + 1) && tlm.Length >= Tri(lmax + 1)
    ensures acc == GradAccumulated(pt, slm[..], tlm[..], inner, lmax, Tri(lmax + 1))
  {
    acc := Vec3(0.0, 0.0, 0.0);
    for l := 0 to lmax + 1
      invariant Tri(l) <= Tri(lmax + 1)
      invariant acc == GradAccumulated(pt, slm[..], tlm[..], inner, lmax, Tri(l))
    {
      TriMonotone(l + 1, lmax + 1);
      acc := GradientRow(pt, slm, tlm, lmax, inner, l, acc);
    }
  }

  /**
   * One position of `mp_gradient_helper`: the spherical sum transformed to
   * Cartesian, scaled by G*M/r_s^2 and ADDED to `grad[3k..3k+2]` (the
   * caller's buffer is not reset); no other slot changes.
   */
  method AddGradientAt(pt: Point, G: real, M: real, rs: real, slm: array<real>, tlm: array<real>,
                       lmax: nat, inner: int, grad: array<real>, k: nat)
    requires rs != 0.0
    requires slm.Length >= NumCoeff(lmax) && tlm.Length >= NumCoeff(lmax)
    requires 3 * k + 2 < grad.Length && grad != slm && grad != tlm
    modifies grad
    ensures var g := GradientAt(pt, G, M, rs, slm[..], tlm[..], lmax, inner);
      grad[3 * k] == old(grad[3 * k]) + g.x &&
      grad[3 * k + 1] == old(grad[3 * k + 1]) + g.y &&
      grad[3 * k + 2] == old(grad[3 * k + 2]) + g.z
    ensures forall j :: 0 <= j < grad.Length && (j < 3 * k || 3 * k + 2 < j) ==> grad[j] == old(grad[j])
  {
    NumCoeffIsTri(lmax);
    var j := 3 * k;
    var acc := GradientTerms(pt, slm, tlm, lmax, inner);
    var c := ToCartesian(pt, acc);
    var scale := G * M / (rs * rs);
    assert GradientAt(pt, G, M, rs, slm[..], tlm[..], lmax, inner) == Vec3(c.x * scale, c.y * scale, c.z * scale);
    grad[j] := grad[j] + c.x * scale;
    grad[j + 1] := grad[j + 1] + c.y * scale;
    grad[j + 2] := grad[j + 2] + c.z * scale;
  }

  /** `mp_gradient_helper`: every position adds its contribution to its own three slots. */
  method GradientHelper(pts: seq<Point>, G: real, M: real, rs: real, slm: array<real>, tlm: array<real>,
                        lmax: nat, inner: int, grad: array<real>)
    requires rs != 0.0
    requires slm.Length >= NumCoeff(lmax) && tlm.Length >= NumCoeff(lmax)
    requires grad.Length >= 3 * |pts| && grad != slm && grad != tlm
    modifies grad
    ensures forall k :: 0 <= k < |pts| ==>
      var g := GradientAt(pts[k], G, M, rs, slm[..], tlm[..], lmax, inner);
      grad[3 * k] == old(grad[3 * k]) + g.x &&
      grad[3 * k + 1] == old(grad[3 * k + 1]) + g.y &&
      grad[3 * k + 2] == old(grad[3 * k + 2]) + g.z
    ensures forall j :: 3 * |pts| <= j < grad.Length ==> grad[j] == old(grad[j])
  {
    for k := 0 to |pts|
      invariant forall k' :: 0 <= k' < k ==>
        var g := GradientAt(pts[k'], G, M, rs, slm[..], tlm[..], lmax, inner);
        grad[3 * k'] == old(grad[3 * k']) + g.x &&
        grad[3 * k' + 1] == old(grad[3 * k' + 1]) + g.y &&
        grad[3 * k' + 2] == old(grad[3 * k' + 2]) + g.z
      invariant forall j :: 3 * k <= j < grad.Length ==> grad[j] == old(grad[j])
    {
      AddGradientAt(pts[k], G, M, rs, slm, tlm, lmax, inner, grad, k);
    }
  }

  // --------------------------------------------------------- entry points

  /** The coefficient arrays the static entry points unpack. */
  function StaticSlm(pars: seq<real>): (S: seq<real>)
    requires StaticLayout(pars)
    ensures |S| == NumCoeff(Trunc(pars[LmaxSlot]))
    ensures forall i :: 0 <= i < |S| ==> S[i] == pars[SlmSlot(i)]
  {
    seq(Trunc(pars[NumCoeffSlot]), i requires 0 <= i < Trunc(pars[NumCoeffSlot]) => pars[SlmSlot(i)])
  }

  function StaticTlm(pars: seq<real>): (T: seq<real>)
    requires StaticLayout(pars)
    ensures |T| == NumCoeff(Trunc(pars[LmaxSlot]))
    ensures forall i :: 0 <= i < |T| ==> T[i] == pars[TlmSlot(i)]
  {
    seq(Trunc(pars[NumCoeffSlot]), i requires 0 <= i < Trunc(pars[NumCoeffSlot]) => pars[TlmSlot(i)])
  }

  /** The value `mp_potential` returns for a parameter array and a position. */
  function StaticPotential(pars: seq<real>, pt: Point): real
    requires StaticLayout(pars) && pars[ScaleSlot] != 0.0
  {
    PotentialAt(pt, pars[GSlot], pars[MassSlot], pars[ScaleSlot], StaticSlm(pars), StaticTlm(pars),
                Trunc(pars[LmaxSlot]), Trunc(pars[InnerSlot]))
  }

  /** What `mp_gradient` adds to `grad[0..2]`. */
  function StaticGradient(pars: seq<real>, pt: Point): Vec3
    requires StaticLayout(pars) && pars[ScaleSlot] != 0.0
  {
    GradientAt(pt, pars[GSlot], pars[MassSlot], pars[ScaleSlot], StaticSlm(pars), StaticTlm(pars),
               Trunc(pars[LmaxSlot]), Trunc(pars[InnerSlot]))
  }

  /** `mp_potential(t, pars, q, n_dim)`; t is unused by the static expansion. */
  method MpPotential(t: real, pars: array<real>, pt: Point) returns (v: real)
    requires StaticLayout(pars[..]) && pars[ScaleSlot] != 0.0
    ensures v == StaticPotential(pars[..], pt)
  {
    var G := pars[GSlot];
    var lmax := Trunc(pars[LmaxSlot]);
    var numCoeff := Trunc(pars[NumCoeffSlot]);
    var inner := Trunc(pars[InnerSlot]);
    var M := pars[MassSlot];
    var rs := pars[ScaleSlot];
    var val := new real[1];
    val[0] := 0.0;
    var slm, tlm := UnpackCoefficients(pars, numCoeff);
    assert slm[..] == StaticSlm(pars[..]) && tlm[..] == StaticTlm(pars[..]);
    PotentialHelper([pt], G, M, rs, slm, tlm, lmax, inner, val);
    v := val[0];
  }

  /** `mp_gradient(t, pars, q, n_dim, grad)`: adds the gradient to the caller's `grad[0..2]`. */
  method MpGradient(t: real, pars: array<real>, pt: Point, grad: array<real>)
    requires StaticLayout(pars[..]) && pars[ScaleSlot] != 0.0
    requires grad.Length >= 3 && grad != pars
    modifies grad
    ensures grad[0] == old(grad[0]) + StaticGradient(old(pars[..]), pt).x
    ensures grad[1] == old(grad[1]) + StaticGradient(old(pars[..]), pt).y
    ensures grad[2] == old(grad[2]) + StaticGradient(old(pars[..]), pt).z
    ensures forall j :: 3 <= j < grad.Length ==> grad[j] == old(grad[j])
  {
    var G := pars[GSlot];
    var lmax := Trunc(pars[LmaxSlot]);
    var numCoeff := Trunc(pars[NumCoeffSlot]);
    var inner := Trunc(pars[InnerSlot]);
    var M := pars[MassSlot];
    var rs := pars[ScaleSlot];
    var slm, tlm := UnpackCoefficients(pars, numCoeff);
    assert slm[..] == StaticSlm(pars[..]) && tlm[..] == StaticTlm(pars[..]);
    GradientHelper([pt], G, M, rs, slm, tlm, lmax, inner, grad);
    assert pars[..] == old(pars[..]);
    assert 3 * 0 == 0;
  }

  /** `mp_density`: the density is not implemented and is 0 for every input. */
  method MpDensity(t: real, pars: array<real>, pt: Point) returns (rho: real)
    requires pars.Length >= HeaderSize
    ensures rho == 0.0
  {
    var lmax := Trunc(pars[LmaxSlot]);
    var numCoeff := Trunc(pars[NumCoeffSlot]);
    var inner := Trunc(pars[InnerSlot]);
    var M := pars[MassSlot];
    var rs := pars[ScaleSlot];
    var val := new real[1];
    val[0] := 0.0;
    rho := val[0];
  }
}
