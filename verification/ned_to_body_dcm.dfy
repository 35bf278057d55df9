/**
 * `NedToBodyDCM` (src/support/transforms/NedToBodyDCM.ts): its matrix is
 * written out entry by entry as the transpose of `BodyToNedDCM`'s, and it
 * adds a gravity helper.
 */
module NedToBody {
  import opened Rotation
  import BodyToNed

  /** A NED-to-body DCM; its matrix is a function of the angles, computed once by the constructor. */
  datatype NedToBodyDcm = NedToBodyDcm(angles: EulerTrig)

  /** `calculateDCM`: the nine entries as the source writes them, row by row. */
  function CalculateDcm(e: EulerTrig): (m: Mat3)
    ensures m == Transpose(BodyToNed.CalculateDcm(e))
  {
    var sf := e.phi.sin; var cf := e.phi.cos;
    var st := e.theta.sin; var ct := e.theta.cos;
    var sp := e.psi.sin; var cp := e.psi.cos;
    var m := Mat3(
      Vec3(ct * cp, sf * st * cp - cf * sp, cf * st * cp + sf * sp),
      Vec3(ct * sp, sf * st * sp + cf * cp, cf * st * sp - sf * cp),
      Vec3(-st, sf * ct, cf * ct));
    assert Transpose(m) == BodyToNed.CalculateDcm(e);
    m
  }

  /** For valid angles the matrix is a proper rotation: orthonormal rows and columns, determinant 1. */
  lemma IsRotation(e: EulerTrig)
    requires e.Valid()
    ensures RowsOrthonormal(CalculateDcm(e)) && RowsOrthonormal(Transpose(CalculateDcm(e)))
    ensures Determinant(CalculateDcm(e)) == 1.0
  {
    var m := BodyToNed.CalculateDcm(e);
    BodyToNed.IsRotation(e);
    assert Transpose(Transpose(m)) == m;
    TransposeDeterminant(m);
  }

  function Matrix(d: NedToBodyDcm): Mat3 {
    CalculateDcm(d.angles)
  }

  /** `transform`: NED to body; for valid angles `BodyToNedDCM` with the same angles maps the result back, and the length is kept. Each DCM class has its own copy of this method; all of them delegate to `Rotation`. */
  function Transform(d: NedToBodyDcm, n: Vec3): (b: Vec3)
    ensures forall i: nat :: i < 3 ==> Component(b, i) == Dot(Row(Matrix(d), i), n)
    ensures d.angles.Valid() ==> BodyToNed.Transform(BodyToNed.BodyToNedDcm(d.angles), b) == n && Dot(b, b) == Dot(n, n)
  {
    var b := Apply(Matrix(d), n);
    assert d.angles.Valid() ==> BodyToNed.Transform(BodyToNed.BodyToNedDcm(d.angles), b) == n && Dot(b, b) == Dot(n, n) by {
      if d.angles.Valid() {
        var m := BodyToNed.CalculateDcm(d.angles);
        assert Matrix(d) == Transpose(m);
        IsRotation(d.angles);
        BodyToNed.IsRotation(d.angles);
        ApplyUndoesTranspose(m, n);
        ApplyKeepsLength(Matrix(d), n);
      }
    }
    b
  }

  /** `transformVelocity(north, east, down)`: the velocity's body components, of the same speed for valid angles. Each DCM class has its own copy of this method; all of them delegate to `Rotation`. */
  function TransformVelocity(d: NedToBodyDcm, north: real, east: real, down: real): (b: Vec3)
    ensures b.x == Dot(Matrix(d).r0, Vec3(north, east, down))
    ensures b.y == Dot(Matrix(d).r1, Vec3(north, east, down))
    ensures b.z == Dot(Matrix(d).r2, Vec3(north, east, down))
    ensures d.angles.Valid() ==> Dot(b, b) == north * north + east * east + down * down
  {
    Transform(d, Vec3(north, east, down))
  }

  /** `transformGravity(g)`: the NED vector (0, 0, g) in this matrix's frame, which is g times the last row of `BodyToNedDCM`'s matrix. */
  function TransformGravity(d: NedToBodyDcm, g: real): (b: Vec3)
    ensures var m := BodyToNed.CalculateDcm(d.angles); b == Vec3(g * m.r2.x, g * m.r2.y, g * m.r2.z)
    ensures d.angles.Valid() ==> Dot(b, b) == g * g
  {
    Transform(d, Vec3(0.0, 0.0, g))
  }

  /** `getMatrix`: a copy of the nine entries, the transpose of `BodyToNedDCM`'s. */
  function GetMatrix(d: NedToBodyDcm): (rows: seq<seq<real>>)
    ensures |rows| == 3 && forall i :: 0 <= i < 3 ==> |rows[i]| == 3
    ensures forall i: nat, j: nat :: i < 3 && j < 3 ==> rows[i][j] == Entry(BodyToNed.CalculateDcm(d.angles), j, i)
  {
    Rows(Matrix(d))
  }

  /** `getTranspose`: exactly `BodyToNedDCM`'s matrix. */
  function GetTranspose(d: NedToBodyDcm): (t: Mat3)
    ensures forall i: nat, j: nat :: i < 3 && j < 3 ==> Entry(t, i, j) == Entry(Matrix(d), j, i)
    ensures t == BodyToNed.CalculateDcm(d.angles)
  {
    Transpose(Matrix(d))
  }

  /** `isOrthogonal(tolerance)`: passes for valid angles at every non-negative tolerance. Each DCM class has its own copy of this method; all of them delegate to `Rotation`. */
  method IsOrthogonal(d: NedToBodyDcm, tolerance: real) returns (r: bool)
    ensures r <==> OrthogonalWithin(Matrix(d), tolerance)
    ensures d.angles.Valid() && 0.0 <= tolerance ==> r
  {
    r := Rotation.IsOrthogonal(Matrix(d), tolerance);
    if d.angles.Valid() && 0.0 <= tolerance {
      IsRotation(d.angles);
      OrthonormalPassesCheck(Matrix(d), tolerance);
    }
  }

  /** `getDeterminant`: exactly 1 for valid angles. Each DCM class has its own copy of this method; all of them delegate to `Rotation`. */
  function GetDeterminant(d: NedToBodyDcm): (det: real)
    ensures det == Dot(Matrix(d).r2, Cross(Matrix(d).r0, Matrix(d).r1))
    ensures d.angles.Valid() ==> det == 1.0
  {
    if d.angles.Valid() then IsRotation(d.angles); Determinant(Matrix(d)) else Determinant(Matrix(d))
  }

  /** Wings level and zero pitch: whatever the heading, gravity stays straight down the body z axis. */
  lemma LevelGravity(e: EulerTrig, g: real)
    requires e.phi == Level && e.theta == Level
    ensures TransformGravity(NedToBodyDcm(e), g) == Vec3(0.0, 0.0, g)
  {
    var m := BodyToNed.CalculateDcm(e);
    assert m.r2 == Vec3(0.0, 0.0, 1.0);
  }

  /** Taking a body vector to NED with `BodyToNedDCM` and back with `NedToBodyDCM` of the same valid angles returns it unchanged. */
  lemma InverseOfBodyToNed(e: EulerTrig, v: Vec3)
    requires e.Valid()
    ensures Transform(NedToBodyDcm(e), BodyToNed.Transform(BodyToNed.BodyToNedDcm(e), v)) == v
  {
    var m := BodyToNed.CalculateDcm(e);
    assert Matrix(NedToBodyDcm(e)) == Transpose(m);
    BodyToNed.IsRotation(e);
    TransposeUndoesApply(m, v);
  }
}
