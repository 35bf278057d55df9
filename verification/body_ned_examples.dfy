/**
 * Worked examples for `BodyNedDCM` from its test file
 * (src/support/transforms/DCM.test.ts): level flight, pitch alone, roll
 * alone and a 45-degree heading.
 */
module BodyNedExamples {
  import opened Rotation
  import opened BodyNed

  /** The matrix with only a pitch angle: a rotation about the body y axis. */
  lemma PitchOnlyMatrix(e: EulerTrig)
    requires e.phi == Level && e.psi == Level
    ensures CalculateBodyToNedDcm(e) == Mat3(Vec3(e.theta.cos, 0.0, -e.theta.sin), Vec3(0.0, 1.0, 0.0), Vec3(e.theta.sin, 0.0, e.theta.cos))
  {
    Euler321PitchOnly(e.phi, e.theta, NegatedYaw(e.psi));
  }

  /** The matrix with only a roll angle: a rotation about the body x axis. */
  lemma RollOnlyMatrix(e: EulerTrig)
    requires e.theta == Level && e.psi == Level
    ensures CalculateBodyToNedDcm(e) == Mat3(Vec3(1.0, 0.0, 0.0), Vec3(0.0, e.phi.cos, e.phi.sin), Vec3(0.0, -e.phi.sin, e.phi.cos))
  {
    Euler321RollOnly(e.phi, e.theta, NegatedYaw(e.psi));
  }

  /** The matrix with only a yaw angle: a rotation about the down axis, turned by the negated yaw. */
  lemma YawOnlyMatrix(e: EulerTrig)
    requires e.phi == Level && e.theta == Level
    ensures CalculateBodyToNedDcm(e) == Mat3(Vec3(e.psi.cos, -e.psi.sin, 0.0), Vec3(e.psi.sin, e.psi.cos, 0.0), Vec3(0.0, 0.0, 1.0))
  {
    Euler321YawOnly(e.phi, e.theta, NegatedYaw(e.psi));
  }

  /** From the body is a plain product with the matrix. */
  lemma FromBodyIsProduct(d: BodyNedDcm, v: Vec3)
    ensures TransformFromBody(d, v) == Apply(CalculateBodyToNedDcm(d.angles), v)
  {
  }

  /** To the body is a plain product with the transpose. */
  lemma ToBodyIsProduct(d: BodyNedDcm, v: Vec3)
    ensures TransformToBody(d, v) == Apply(Transpose(CalculateBodyToNedDcm(d.angles)), v)
  {
  }

  /** The identity and its transpose leave a vector alone. */
  lemma IdentityBothWays(m: Mat3, v: Vec3)
    requires m == Identity()
    ensures Apply(m, v) == v && Apply(Transpose(m), v) == v
  {
    assert Transpose(m) == Identity();
    IdentityKeepsVectors(v);
  }

  /** Level flight: forward 50 in the body is 50 north, and north or east 50 come back unchanged. */
  lemma LevelFlight(d: BodyNedDcm)
    requires d.angles == EulerTrig(Level, Level, Level)
    ensures TransformFromBody(d, Vec3(50.0, 0.0, 0.0)) == Vec3(50.0, 0.0, 0.0)
    ensures TransformToBody(d, Vec3(50.0, 0.0, 0.0)) == Vec3(50.0, 0.0, 0.0)
    ensures TransformToBody(d, Vec3(0.0, 50.0, 0.0)) == Vec3(0.0, 50.0, 0.0)
  {
    LevelIsIdentity();
    FromBodyIsProduct(d, Vec3(50.0, 0.0, 0.0));
    ToBodyIsProduct(d, Vec3(50.0, 0.0, 0.0));
    ToBodyIsProduct(d, Vec3(0.0, 50.0, 0.0));
    IdentityBothWays(CalculateBodyToNedDcm(d.angles), Vec3(50.0, 0.0, 0.0));
    IdentityBothWays(CalculateBodyToNedDcm(d.angles), Vec3(0.0, 50.0, 0.0));
  }

  /** A pitch rotation sends a forward vector into the north/down plane. */
  lemma PitchForward(m: Mat3, c: real, s: real, k: real)
    requires m == Mat3(Vec3(c, 0.0, -s), Vec3(0.0, 1.0, 0.0), Vec3(s, 0.0, c))
    ensures Apply(m, Vec3(k, 0.0, 0.0)) == Vec3(c * k, 0.0, s * k)
  {
  }

  /** Roll alone leaves a forward velocity pointing north. */
  lemma RollOnly(d: BodyNedDcm)
    requires d.angles.psi == Level && d.angles.theta == Level
    ensures TransformFromBody(d, Vec3(50.0, 0.0, 0.0)) == Vec3(50.0, 0.0, 0.0)
  {
    RollOnlyMatrix(d.angles);
    FromBodyIsProduct(d, Vec3(50.0, 0.0, 0.0));
  }

  /** The cosine and sine of 45 degrees lie between 0.70710 and 0.70711. */
  lemma HalfRootBounds(r: real)
    requires 0.0 < r && r * r == 0.5
    ensures 0.70710 < r < 0.70711
  {
    assert (r - 0.70710) * (r + 0.70710) == r * r - 0.70710 * 0.70710;
    PositiveFactor(r - 0.70710, r + 0.70710);
    assert (0.70711 - r) * (0.70711 + r) == 0.70711 * 0.70711 - r * r;
    PositiveFactor(0.70711 - r, 0.70711 + r);
  }

  /** A product is positive with a positive right factor only when the left one is positive. */
  lemma PositiveFactor(x: real, y: real)
    requires 0.0 < y && 0.0 < x * y
    ensures 0.0 < x
  {
  }

  /**
   * A 45-degree yaw: a wing-tip vector 1.76 to the right of the body and
   * 0.12 down lands near (-1.244, 1.244, 0.12) in the NED frame, and that
   * NED vector comes back near (0, 1.76, 0.12), each within 0.005.
   */
  lemma Yaw45(e: EulerTrig, r: real)
    requires e.phi == Level && e.theta == Level && e.psi == SinCos(r, r)
    requires 0.0 < r && r * r == 0.5
    ensures var n := Apply(CalculateBodyToNedDcm(e), Vec3(0.0, 1.76, 0.12));
      -1.249 < n.x < -1.239 && 1.239 < n.y < 1.249 && n.z == 0.12
    ensures var b := Apply(Transpose(CalculateBodyToNedDcm(e)), Vec3(-1.244, 1.244, 0.12));
      -0.005 < b.x < 0.005 && 1.755 < b.y < 1.765 && b.z == 0.12
  {
    YawOnlyMatrix(e);
    HalfRootBounds(r);
    YawVectors(CalculateBodyToNedDcm(e), r);
  }

  /** The two test vectors through the 45-degree yaw matrix and its transpose. */
  lemma YawVectors(m: Mat3, r: real)
    requires m == Mat3(Vec3(r, -r, 0.0), Vec3(r, r, 0.0), Vec3(0.0, 0.0, 1.0))
    ensures Apply(m, Vec3(0.0, 1.76, 0.12)) == Vec3(-1.76 * r, 1.76 * r, 0.12)
    ensures Apply(Transpose(m), Vec3(-1.244, 1.244, 0.12)) == Vec3(0.0, 2.488 * r, 0.12)
  {
  }
}
