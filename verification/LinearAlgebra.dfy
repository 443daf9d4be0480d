/** Vectors and matrices over exact reals: the inner-product laws that the
    elimination and least-squares proofs rest on. */
module LinearAlgebra {
  import opened RealArithmetic

  type Vec = seq<real>
  type Matrix = seq<Vec>

  ghost predicate Rectangular(m: Matrix, width: nat) {
    forall r :: 0 <= r < |m| ==> |m[r]| == width
  }

  function Zeros(n: nat): (v: Vec)
    ensures |v| == n && forall i :: 0 <= i < n ==> v[i] == 0.0
  {
    seq(n, _ => 0.0)
  }

  function SumTo(v: Vec, k: nat): real
    requires k <= |v|
  {
    if k == 0 then 0.0 else SumTo(v, k - 1) + v[k - 1]
  }

  function Sum(v: Vec): real {
    SumTo(v, |v|)
  }

  /** The inner product of the first k entries. */
  function DotTo(a: Vec, b: Vec, k: nat): real
    requires k <= |a| && k <= |b|
  {
    if k == 0 then 0.0 else DotTo(a, b, k - 1) + Times(a[k - 1], b[k - 1])
  }

  function Dot(a: Vec, b: Vec): real
    requires |a| == |b|
  {
    DotTo(a, b, |a|)
  }

  /** a - f * b, the row operation of Gauss-Jordan elimination. */
  function Subtract(a: Vec, f: real, b: Vec): (r: Vec)
    requires |a| == |b|
    ensures |r| == |a| && forall j :: 0 <= j < |a| ==> r[j] == a[j] - f * b[j]
  {
    seq(|a|, j requires 0 <= j < |a| => a[j] - f * b[j])
  }

  function Divided(a: Vec, d: real): (r: Vec)
    requires d != 0.0
    ensures |r| == |a| && forall j :: 0 <= j < |a| ==> r[j] == a[j] / d
  {
    seq(|a|, j requires 0 <= j < |a| => a[j] / d)
  }

  ghost predicate IsZero(v: Vec) {
    forall i :: 0 <= i < |v| ==> v[i] == 0.0
  }

  /** v lies in the null space of m. */
  ghost predicate Annihilates(m: Matrix, v: Vec) {
    Rectangular(m, |v|) && forall r :: 0 <= r < |m| ==> Dot(m[r], v) == 0.0
  }

  /** Only the zero vector is annihilated: the columns are independent. */
  ghost predicate IndependentColumns(m: Matrix, n: nat) {
    forall v: Vec :: |v| == n && Annihilates(m, v) ==> IsZero(v)
  }

  lemma SubtractTerm(w: real, x: real, f: real, y: real, z: real)
    requires w == x - f * y
    ensures Times(w, z) == Times(x, z) - Times(f, Times(y, z))
  {
    assert (x - f * y) * z == x * z - f * (y * z);
  }

  lemma {:induction false} DotToSubtract(a: Vec, f: real, b: Vec, v: Vec, k: nat)
    requires |a| == |b| && k <= |a| && k <= |v|
    ensures DotTo(Subtract(a, f, b), v, k) == DotTo(a, v, k) - Times(f, DotTo(b, v, k))
  {
    hide Times;
    if k == 0 {
      TimesZero(f);
    } else {
      DotToSubtract(a, f, b, v, k - 1);
      SubtractTerm(Subtract(a, f, b)[k - 1], a[k - 1], f, b[k - 1], v[k - 1]);
      TimesLaws(f, DotTo(b, v, k - 1), Times(b[k - 1], v[k - 1]));
    }
  }

  lemma {:induction false} DotToDivided(a: Vec, d: real, v: Vec, k: nat)
    requires d != 0.0 && k <= |a| && k <= |v|
    ensures DotTo(Divided(a, d), v, k) == DotTo(a, v, k) / d
  {
    if k > 0 {
      DotToDivided(a, d, v, k - 1);
      var x, z, p := a[k - 1], v[k - 1], DotTo(a, v, k - 1);
      assert (x / d) * z == (x * z) / d;
      assert p / d + (x * z) / d == (p + x * z) / d;
    }
  }

  lemma {:induction false} DotToCommutes(a: Vec, b: Vec, k: nat)
    requires k <= |a| && k <= |b|
    ensures DotTo(a, b, k) == DotTo(b, a, k)
  {
    hide Times;
    if k > 0 {
      DotToCommutes(a, b, k - 1);
      TimesLaws(a[k - 1], b[k - 1], 0.0);
    }
  }

  /** Only the entries below k matter. */
  lemma {:induction false} DotToAgree(a: Vec, b: Vec, a': Vec, b': Vec, k: nat)
    requires k <= |a| && k <= |b| && k <= |a'| && k <= |b'|
    requires forall i :: 0 <= i < k ==> a[i] == a'[i] && b[i] == b'[i]
    ensures DotTo(a, b, k) == DotTo(a', b', k)
  {
    hide Times;
    if k > 0 {
      DotToAgree(a, b, a', b', k - 1);
    }
  }

  lemma {:induction false} DotToUpdate(a: Vec, v: Vec, i: nat, u: real, k: nat)
    requires i < |v| && k <= |a| && k <= |v|
    ensures DotTo(a, v[i := u], k) == DotTo(a, v, k) + (if i < k then Times(a[i], u - v[i]) else 0.0)
  {
    hide Times;
    if k > 0 {
      DotToUpdate(a, v, i, u, k - 1);
      if i == k - 1 {
        TimesLaws(a[i], u, v[i]);
      }
    }
  }

  lemma {:induction false} DotToZero(a: Vec, v: Vec, k: nat)
    requires k <= |a| && k <= |v|
    requires forall i :: 0 <= i < k ==> a[i] == 0.0 || v[i] == 0.0
    ensures DotTo(a, v, k) == 0.0
  {
    hide Times;
    if k > 0 {
      DotToZero(a, v, k - 1);
      TimesZero(a[k - 1]);
      TimesZero(v[k - 1]);
    }
  }

  /** When at most two positions have both entries nonzero, only they contribute. */
  lemma {:induction false} DotToPicks(a: Vec, v: Vec, i: nat, j: nat, k: nat)
    requires k <= |a| && k <= |v| && i < j && j < |a| && j < |v|
    requires forall l :: 0 <= l < k && l != i && l != j ==> a[l] == 0.0 || v[l] == 0.0
    ensures DotTo(a, v, k)
      == (if i < k then Times(a[i], v[i]) else 0.0) + (if j < k then Times(a[j], v[j]) else 0.0)
  {
    hide Times;
    if k > 0 {
      DotToPicks(a, v, i, j, k - 1);
      TimesZero(a[k - 1]);
      TimesZero(v[k - 1]);
    }
  }

  lemma {:induction false} DotToPicksOne(a: Vec, v: Vec, i: nat, k: nat)
    requires k <= |a| && k <= |v| && i < |a| && i < |v|
    requires forall l :: 0 <= l < k && l != i ==> a[l] == 0.0 || v[l] == 0.0
    ensures DotTo(a, v, k) == if i < k then Times(a[i], v[i]) else 0.0
  {
    hide Times;
    if k > 0 {
      DotToPicksOne(a, v, i, k - 1);
      TimesZero(a[k - 1]);
      TimesZero(v[k - 1]);
    }
  }

  /** Linearity in the second argument, u - f * w. */
  lemma DotSubtractRight(a: Vec, u: Vec, f: real, w: Vec)
    requires |a| == |u| == |w|
    ensures Dot(a, Subtract(u, f, w)) == Dot(a, u) - Times(f, Dot(a, w))
  {
    hide Times;
    DotToCommutes(a, Subtract(u, f, w), |a|);
    DotToSubtract(u, f, w, a, |a|);
    DotToCommutes(a, u, |a|);
    DotToCommutes(a, w, |a|);
  }
}
