/**
 * `BodyNedDCM` (src/support/transforms/BodyNedDCM.ts), the `DCM` subclass
 * the tests exercise: the 3-2-1 Euler matrix built with the yaw angle
 * negated, `transformFromBody` through the matrix and `transformToBody`
 * through its transpose.
 */
module BodyNed {
  import opened Wrappers
  import opened Rotation
  import BodyToNed

  /** The sine and cosine of the negated yaw: sine is odd and cosine is even. */
  function NegatedYaw(psi: SinCos): (r: SinCos)
    ensures r.sin + psi.sin == 0.0 && r.cos == psi.cos
  {
    SinCos(-psi.sin, psi.cos)
  }

  /** The negated yaw is a point on the unit circle exactly when the yaw is. */
  lemma NegatedYawOnCircle(psi: SinCos)
    ensures NegatedYaw(psi).OnCircle() <==> psi.OnCircle()
  {
  }

  /** Negating the yaw twice gives the yaw back. */
  lemma NegatedYawInvolution(psi: SinCos)
    ensures NegatedYaw(NegatedYaw(psi)) == psi
  {
  }

  /** A zero yaw negated is still zero. */
  lemma NegatedLevel()
    ensures NegatedYaw(Level) == Level
  {
  }

  /** A body/NED DCM; the constructor stores the angles and computes the matrix once. */
  datatype BodyNedDcm = BodyNedDcm(angles: EulerTrig)

  /** `calculateBodyToNedDCM`: the Euler matrix with sin(-psi) and cos(-psi) in place of the yaw terms, which is `BodyToNedDCM`'s matrix for the negated yaw. */
  function CalculateBodyToNedDcm(e: EulerTrig): (m: Mat3)
    ensures m.r0.y == -(e.theta.cos * e.psi.sin)
  {
    var yaw := NegatedYaw(e.psi);
    Euler321(e.phi, e.theta, yaw)
  }

  /** The matrix is `BodyToNedDCM`'s matrix for the negated yaw, and conversely. */
  lemma MirrorsBodyToNed(e: EulerTrig)
    ensures CalculateBodyToNedDcm(e) == BodyToNed.CalculateDcm(EulerTrig(NegatedYaw(e.psi), e.theta, e.phi))
    ensures BodyToNed.CalculateDcm(e) == CalculateBodyToNedDcm(EulerTrig(NegatedYaw(e.psi), e.theta, e.phi))
  {
    NegatedYawInvolution(e.psi);
  }

  /** For valid angles the matrix is a proper rotation: orthonormal rows and columns, determinant 1. */
  lemma IsRotation(e: EulerTrig)
    requires e.Valid()
    ensures RowsOrthonormal(CalculateBodyToNedDcm(e)) && RowsOrthonormal(Transpose(CalculateBodyToNedDcm(e)))
    ensures Determinant(CalculateBodyToNedDcm(e)) == 1.0
  {
    MirrorsBodyToNed(e);
    NegatedYawOnCircle(e.psi);
    BodyToNed.IsRotation(EulerTrig(NegatedYaw(e.psi), e.theta, e.phi));
  }

  /** Zero angles give the identity matrix. */
  lemma LevelIsIdentity()
    ensures CalculateBodyToNedDcm(EulerTrig(Level, Level, Level)) == Identity()
  {
    NegatedLevel();
    Euler321Level();
  }

  function Matrix(d: BodyNedDcm): Mat3 {
    CalculateBodyToNedDcm(d.angles)
  }

  /** `getMatrix` on a constructed DCM: always initialised, so the nine entries. */
  function GetMatrixRows(d: BodyNedDcm): (r: Result<seq<seq<real>>>)
    ensures r.Success?
    ensures |r.value| == 3 && forall i :: 0 <= i < 3 ==> |r.value[i]| == 3
    ensures forall i: nat, j: nat :: i < 3 && j < 3 ==> r.value[i][j] == Entry(Matrix(d), i, j)
  {
    GetMatrixOfConstructed(Matrix(d));
    GetMatrix(Rows(Matrix(d)))
  }

  /** `getTranspose`: rows and columns of the matrix swapped, which for valid angles is its inverse. */
  function GetTranspose(d: BodyNedDcm): (t: Mat3)
    ensures forall i: nat, j: nat :: i < 3 && j < 3 ==> Entry(t, i, j) == Entry(Matrix(d), j, i)
    ensures d.angles.Valid() ==> Mul(Matrix(d), t) == Identity() && Mul(t, Matrix(d)) == Identity()
  {
    var t := Transpose(Matrix(d));
    assert d.angles.Valid() ==> Mul(Matrix(d), t) == Identity() && Mul(t, Matrix(d)) == Identity() by {
      if d.angles.Valid() {
        IsRotation(d.angles);
        OrthonormalInverse(Matrix(d));
      }
    }
    t
  }

  /** `transformFromBody`: the body vector through the matrix; for valid angles the transpose maps it back. Each DCM class has its own copy of this method; all of them delegate to `Rotation`. */
  function TransformFromBody(d: BodyNedDcm, v: Vec3): (n: Vec3)
    ensures forall i: nat :: i < 3 ==> Component(n, i) == Dot(Row(Matrix(d), i), v)
    ensures d.angles.Valid() ==> Apply(Transpose(Matrix(d)), n) == v && Dot(n, n) == Dot(v, v)
  {
    var n := Apply(Matrix(d), v);
    assert d.angles.Valid() ==> Apply(Transpose(Matrix(d)), n) == v && Dot(n, n) == Dot(v, v) by {
      if d.angles.Valid() {
        IsRotation(d.angles);
        TransposeUndoesApply(Matrix(d), v);
        ApplyKeepsLength(Matrix(d), v);
      }
    }
    n
  }

  /** `transformToBody`: the NED vector through the transpose; for valid angles the matrix maps it back. */
  function TransformToBody(d: BodyNedDcm, n: Vec3): (b: Vec3)
    ensures forall i: nat :: i < 3 ==> Component(b, i) == Dot(Row(Transpose(Matrix(d)), i), n)
    ensures d.angles.Valid() ==> Apply(Matrix(d), b) == n && Dot(b, b) == Dot(n, n)
  {
    var b := Apply(GetTranspose(d), n);
    assert d.angles.Valid() ==> Apply(Matrix(d), b) == n && Dot(b, b) == Dot(n, n) by {
      if d.angles.Valid() {
        IsRotation(d.angles);
        ApplyUndoesTranspose(Matrix(d), n);
        var t := Transpose(Matrix(d));
        assert Transpose(t) == Matrix(d);
        ApplyKeepsLength(t, n);
      }
    }
    b
  }

  /** `isOrthogonal(tolerance)`: passes for valid angles at every non-negative tolerance. Each DCM class has its own copy of this method; all of them delegate to `Rotation`. */
  method IsOrthogonal(d: BodyNedDcm, tolerance: real) returns (r: bool)
    ensures r <==> OrthogonalWithin(Matrix(d), tolerance)
    ensures d.angles.Valid() && 0.0 <= tolerance ==> r
  {
    r := Rotation.IsOrthogonal(Matrix(d), tolerance);
    if d.angles.Valid() && 0.0 <= tolerance {
      IsRotation(d.angles);
      OrthonormalPassesCheck(Matrix(d), tolerance);
    }
  }

  /** `getDeterminant`: exactly 1 for valid angles. Each DCM class has its own copy of this method; all of them delegate to `Rotation`. */
  function GetDeterminant(d: BodyNedDcm): (det: real)
    ensures det == Dot(Matrix(d).r2, Cross(Matrix(d).r0, Matrix(d).r1))
    ensures d.angles.Valid() ==> det == 1.0
  {
    if d.angles.Valid() then IsRotation(d.angles); Determinant(Matrix(d)) else Determinant(Matrix(d))
  }

  /** Both round trips between the frames return the vector unchanged. */
  lemma RoundTrips(d: BodyNedDcm, v: Vec3)
    requires d.angles.Valid()
    ensures TransformToBody(d, TransformFromBody(d, v)) == v
    ensures TransformFromBody(d, TransformToBody(d, v)) == v
  {
  }
}
