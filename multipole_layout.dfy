/**
 * Index arithmetic of the multipole expansion's flat `double *pars` array:
 * the C `(int)` cast of header fields, the triangular (l, m) enumeration with
 * its single running counter, and the fixed slots of the static layout.
 */
module MultipoleLayout {

  /** C's `(int)` conversion of a double: truncation toward zero. */
  function Trunc(x: real): (n: int)
    ensures 0.0 <= x ==> 0 <= n && n as real <= x < n as real + 1.0
    ensures x < 0.0 ==> n <= 0 && n as real - 1.0 < x <= n as real
  {
    if x >= 0.0 then x.Floor else -((-x).Floor)
  }

  /** Number of pairs (l, m) with 0 <= m <= l < n. */
  function Tri(n: nat): nat {
    if n == 0 then 0 else Tri(n - 1) + n
  }

  /** The coefficient count the caller stores in `pars[2]` for a given lmax. */
  function NumCoeff(lmax: nat): nat {
    (lmax + 1) * (lmax + 2) / 2
  }

  lemma {:induction false} TriClosedForm(n: nat)
    ensures 2 * Tri(n) == n * (n + 1)
  {
    if n > 0 {
      TriClosedForm(n - 1);
    }
  }

  /** The counter after the full triangular walk up to lmax is the coefficient count. */
  lemma NumCoeffIsTri(lmax: nat)
    ensures NumCoeff(lmax) == Tri(lmax + 1)
  {
    TriClosedForm(lmax + 1);
  }

  lemma {:induction false} TriMonotone(a: nat, b: nat)
    requires a <= b
    ensures Tri(a) <= Tri(b)
  {
    if a < b {
      TriMonotone(a, b - 1);
    }
  }

  /** Row l of the walk: (l, 0), (l, 1), ..., (l, l). */
  function Row(l: nat): seq<(nat, nat)> {
    seq(l + 1, m requires 0 <= m <= l => (l, m))
  }

  /** The pairs the nested loops `for l < n, for m <= l` visit, in visiting order. */
  function Pairs(n: nat): (ps: seq<(nat, nat)>)
    ensures |ps| == Tri(n)
  {
    if n == 0 then [] else Pairs(n - 1) + Row(n - 1)
  }

  predicate LexLess(a: (nat, nat), b: (nat, nat)) {
    a.0 < b.0 || (a.0 == b.0 && a.1 < b.1)
  }

  /**
   * The walk has Tri(n) steps, visits only pairs with m <= l < n, and visits
   * them in strictly increasing lexicographic order, hence each at most once.
   */
  lemma {:induction false} PairsOrdered(n: nat)
    ensures |Pairs(n)| == Tri(n)
    ensures forall i :: 0 <= i < |Pairs(n)| ==> Pairs(n)[i].1 <= Pairs(n)[i].0 < n
    ensures forall i, j :: 0 <= i < j < |Pairs(n)| ==> LexLess(Pairs(n)[i], Pairs(n)[j])
  {
    if n > 0 {
      PairsOrdered(n - 1);
      var p, r := Pairs(n - 1), Row(n - 1);
      assert Pairs(n) == p + r;
      forall i, j | 0 <= i < j < |p + r| ensures LexLess((p + r)[i], (p + r)[j]) {
        if j < |p| {
        } else if i < |p| {
          assert (p + r)[j] == r[j - |p|];
        } else {
          assert (p + r)[i] == r[i - |p|] && (p + r)[j] == r[j - |p|];
        }
      }
    }
  }

  /** Pair (l, m) is visited exactly when the counter is Tri(l) + m, i.e. l(l+1)/2 + m. */
  lemma {:induction false} PairsIndex(n: nat, l: nat, m: nat)
    requires m <= l < n
    ensures |Pairs(n)| == Tri(n)
    ensures Tri(l) + m < Tri(n)
    ensures Pairs(n)[Tri(l) + m] == (l, m)
  {
    PairsOrdered(n);
    if l < n - 1 {
      PairsIndex(n - 1, l, m);
      TriMonotone(l + 1, n - 1);
    } else {
      PairsOrdered(n - 1);
    }
  }

  /** The counter value of pair (l, m) in closed form: l(l+1)/2 + m. */
  lemma FlatIndexClosedForm(l: nat, m: nat)
    ensures Tri(l) + m == l * (l + 1) / 2 + m
  {
    TriClosedForm(l);
  }

  /** Every pair with m <= l < n is visited, exactly once, by the walk over rows 0..n-1. */
  lemma PairsExactlyOnce(n: nat, l: nat, m: nat)
    requires m <= l < n
    ensures exists i :: 0 <= i < |Pairs(n)| && Pairs(n)[i] == (l, m)
    ensures forall i :: 0 <= i < |Pairs(n)| && Pairs(n)[i] == (l, m) ==> i == Tri(l) + m
  {
    PairsIndex(n, l, m);
    PairsOrdered(n);
  }

  // ---------------------------------------------------------- static layout

  /** Header slots of `mp_potential` / `mp_gradient` / `mp_density`. */
  const GSlot: nat := 0
  const LmaxSlot: nat := 1
  const NumCoeffSlot: nat := 2
  const InnerSlot: nat := 3
  const MassSlot: nat := 4
  const ScaleSlot: nat := 5
  const HeaderSize: nat := 6

  /** Coefficients follow the header interleaved: Slm[i], Tlm[i], Slm[i+1], ... */
  function SlmSlot(i: nat): nat { HeaderSize + 2 * i }
  function TlmSlot(i: nat): nat { HeaderSize + 2 * i + 1 }

  /** The coefficient a slot past the header holds: its index, and whether it is a Tlm. */
  function CoefficientAt(s: nat): (c: (nat, bool))
    requires s >= HeaderSize
    ensures s == if c.1 then TlmSlot(c.0) else SlmSlot(c.0)
  {
    ((s - HeaderSize) / 2, (s - HeaderSize) % 2 == 1)
  }

  /** The interleaving is a bijection between coefficient slots and (index, kind) pairs. */
  lemma CoefficientSlotsInverse(i: nat)
    ensures CoefficientAt(SlmSlot(i)) == (i, false)
    ensures CoefficientAt(TlmSlot(i)) == (i, true)
  {
  }

  /** What the static entry points read from `pars`; the code checks none of it. */
  predicate StaticLayout(pars: seq<real>) {
    && |pars| >= HeaderSize
    && Trunc(pars[LmaxSlot]) >= 0
    && Trunc(pars[NumCoeffSlot]) == NumCoeff(Trunc(pars[LmaxSlot]))
    && |pars| >= HeaderSize + 2 * Trunc(pars[NumCoeffSlot])
  }

  /** The copy loop `Slm[i] = pars[6 + 2*i]; Tlm[i] = pars[7 + 2*i]` for i < numCoeff. */
  method UnpackCoefficients(pars: array<real>, numCoeff: nat) returns (slm: array<real>, tlm: array<real>)
    requires pars.Length >= HeaderSize + 2 * numCoeff
    ensures fresh(slm) && fresh(tlm)
    ensures slm.Length == numCoeff && tlm.Length == numCoeff
    ensures forall i :: 0 <= i < numCoeff ==> slm[i] == pars[SlmSlot(i)] && tlm[i] == pars[TlmSlot(i)]
  {
    slm := new real[numCoeff];
    tlm := new real[numCoeff];
    for i := 0 to numCoeff
      invariant forall j :: 0 <= j < i ==> slm[j] == pars[SlmSlot(j)] && tlm[j] == pars[TlmSlot(j)]
    {
      slm[i] := pars[SlmSlot(i)];
      tlm[i] := pars[TlmSlot(i)];
    }
  }
}
