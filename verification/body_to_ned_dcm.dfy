/**
 * `BodyToNedDCM` (src/support/transforms/BodyToNedDCM.ts): the 3-2-1 Euler
 * matrix taking body-frame vectors (forward, right, down) to the
 * North-East-Down frame, with the yaw angle used as given.
 */
module BodyToNed {
  import opened Rotation

  /** A body-to-NED DCM; its matrix is a function of the angles, computed once by the constructor. */
  datatype BodyToNedDcm = BodyToNedDcm(angles: EulerTrig)

  /** `calculateDCM`: the Euler matrix of roll, pitch and yaw; zero angles give the identity. */
  function CalculateDcm(e: EulerTrig): (m: Mat3)
    ensures e == EulerTrig(Level, Level, Level) ==> m == Identity()
  {
    Euler321Level();
    Euler321(e.phi, e.theta, e.psi)
  }

  /** For valid angles the matrix is a proper rotation: orthonormal rows and columns, determinant 1. */
  lemma IsRotation(e: EulerTrig)
    requires e.Valid()
    ensures RowsOrthonormal(CalculateDcm(e)) && RowsOrthonormal(Transpose(CalculateDcm(e)))
    ensures Determinant(CalculateDcm(e)) == 1.0
  {
    Euler321RowsOrthonormal(e.phi, e.theta, e.psi);
    Euler321ColumnsOrthonormal(e.phi, e.theta, e.psi);
    Euler321Determinant(e.phi, e.theta, e.psi);
  }

  function Matrix(d: BodyToNedDcm): Mat3 {
    CalculateDcm(d.angles)
  }

  /** `transform`: body to NED; for valid angles the transpose recovers the body vector and the length is kept. Each DCM class has its own copy of this method; all of them delegate to `Rotation`. */
  function Transform(d: BodyToNedDcm, v: Vec3): (n: Vec3)
    ensures forall i: nat :: i < 3 ==> Component(n, i) == Dot(Row(Matrix(d), i), v)
    ensures d.angles.Valid() ==> Apply(Transpose(Matrix(d)), n) == v && Dot(n, n) == Dot(v, v)
  {
    var n := Apply(Matrix(d), v);
    assert d.angles.Valid() ==> Apply(Transpose(Matrix(d)), n) == v && Dot(n, n) == Dot(v, v) by {
      if d.angles.Valid() {
        IsRotation(d.angles);
        TransposeUndoesApply(Matrix(d), v);
        ApplyKeepsLength(Matrix(d), v);
      }
    }
    n
  }

  /** `transformVelocity(u, v, w)`: the velocity's NED components, of the same speed for valid angles. Each DCM class has its own copy of this method; all of them delegate to `Rotation`. */
  function TransformVelocity(d: BodyToNedDcm, u: real, v: real, w: real): (n: Vec3)
    ensures n.x == Dot(Matrix(d).r0, Vec3(u, v, w))
    ensures n.y == Dot(Matrix(d).r1, Vec3(u, v, w))
    ensures n.z == Dot(Matrix(d).r2, Vec3(u, v, w))
    ensures d.angles.Valid() ==> Dot(n, n) == u * u + v * v + w * w
  {
    Transform(d, Vec3(u, v, w))
  }

  /** `getMatrix`: a copy of the nine entries, the identity for zero angles. */
  function GetMatrix(d: BodyToNedDcm): (rows: seq<seq<real>>)
    ensures |rows| == 3 && forall i :: 0 <= i < 3 ==> |rows[i]| == 3
    ensures forall i: nat, j: nat :: i < 3 && j < 3 ==> rows[i][j] == Entry(Matrix(d), i, j)
    ensures d.angles == EulerTrig(Level, Level, Level) ==> rows == [[1.0, 0.0, 0.0], [0.0, 1.0, 0.0], [0.0, 0.0, 1.0]]
  {
    Rows(Matrix(d))
  }

  /** `getTranspose`: the NED-to-body matrix, which for valid angles undoes `transform`. */
  function GetTranspose(d: BodyToNedDcm): (t: Mat3)
    ensures forall i: nat, j: nat :: i < 3 && j < 3 ==> Entry(t, i, j) == Entry(Matrix(d), j, i)
    ensures d.angles.Valid() ==> forall v :: Apply(t, Transform(d, v)) == v
  {
    Transpose(Matrix(d))
  }

  /** `isOrthogonal(tolerance)`: passes for valid angles at every non-negative tolerance. Each DCM class has its own copy of this method; all of them delegate to `Rotation`. */
  method IsOrthogonal(d: BodyToNedDcm, tolerance: real) returns (r: bool)
    ensures r <==> OrthogonalWithin(Matrix(d), tolerance)
    ensures d.angles.Valid() && 0.0 <= tolerance ==> r
  {
    r := Rotation.IsOrthogonal(Matrix(d), tolerance);
    if d.angles.Valid() && 0.0 <= tolerance {
      IsRotation(d.angles);
      OrthonormalPassesCheck(Matrix(d), tolerance);
    }
  }

  /** `getDeterminant`: exactly 1 for valid angles. Each DCM class has its own copy of this method; all of them delegate to `Rotation`. */
  function GetDeterminant(d: BodyToNedDcm): (det: real)
    ensures det == Dot(Matrix(d).r2, Cross(Matrix(d).r0, Matrix(d).r1))
    ensures d.angles.Valid() ==> det == 1.0
  {
    if d.angles.Valid() then IsRotation(d.angles); Determinant(Matrix(d)) else Determinant(Matrix(d))
  }

  /** Level flight: zero angles leave a forward velocity of 50 pointing north. */
  lemma LevelFlight()
    ensures Transform(BodyToNedDcm(EulerTrig(Level, Level, Level)), Vec3(50.0, 0.0, 0.0)) == Vec3(50.0, 0.0, 0.0)
  {
    var d := BodyToNedDcm(EulerTrig(Level, Level, Level));
    assert Matrix(d) == Identity();
    IdentityKeepsVectors(Vec3(50.0, 0.0, 0.0));
  }
}
