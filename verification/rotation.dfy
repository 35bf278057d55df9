/**
 * Three-by-three direction cosine matrices, shared by the three DCM classes
 * of src/support/transforms: vectors, matrices as three rows, the source's
 * matrix-vector products, transpose, determinant and orthogonality check,
 * and the 3-2-1 Euler-angle matrix built from the sines and cosines of the
 * three angles.
 */
module Rotation {
  import opened Wrappers
  import opened Numerics

  datatype Vec3 = Vec3(x: real, y: real, z: real)

  /** A matrix as its three rows. */
  datatype Mat3 = Mat3(r0: Vec3, r1: Vec3, r2: Vec3)

  function Dot(a: Vec3, b: Vec3): real {
    a.x * b.x + a.y * b.y + a.z * b.z
  }

  function Cross(a: Vec3, b: Vec3): Vec3 {
    Vec3(a.y * b.z - a.z * b.y, a.z * b.x - a.x * b.z, a.x * b.y - a.y * b.x)
  }

  function Identity(): Mat3 {
    Mat3(Vec3(1.0, 0.0, 0.0), Vec3(0.0, 1.0, 0.0), Vec3(0.0, 0.0, 1.0))
  }

  /** Row i as a vector. */
  function Row(m: Mat3, i: nat): Vec3
    requires i < 3
  {
    if i == 0 then m.r0 else if i == 1 then m.r1 else m.r2
  }

  /** Component j of a vector. */
  function Component(v: Vec3, j: nat): real
    requires j < 3
  {
    if j == 0 then v.x else if j == 1 then v.y else v.z
  }

  /** `matrix[i][j]`. */
  function Entry(m: Mat3, i: nat, j: nat): real
    requires i < 3 && j < 3
  {
    Component(Row(m, i), j)
  }

  /** `getTranspose`: rows and columns swapped. */
  function Transpose(m: Mat3): (t: Mat3)
    ensures forall i: nat, j: nat :: i < 3 && j < 3 ==> Entry(t, i, j) == Entry(m, j, i)
  {
    Mat3(Vec3(m.r0.x, m.r1.x, m.r2.x), Vec3(m.r0.y, m.r1.y, m.r2.y), Vec3(m.r0.z, m.r1.z, m.r2.z))
  }

  /** The source's matrix-vector product: each output component is a row dotted with the input. */
  function Apply(m: Mat3, v: Vec3): (r: Vec3)
    ensures forall i: nat :: i < 3 ==> Component(r, i) == Dot(Row(m, i), v)
  {
    Vec3(m.r0.x * v.x + m.r0.y * v.y + m.r0.z * v.z,
         m.r1.x * v.x + m.r1.y * v.y + m.r1.z * v.z,
         m.r2.x * v.x + m.r2.y * v.y + m.r2.z * v.z)
  }

  /** The matrix product, entry (i, j) being row i of a dotted with column j of b. */
  function Mul(a: Mat3, b: Mat3): (p: Mat3)
    ensures forall i: nat, j: nat :: i < 3 && j < 3 ==> Entry(p, i, j) == Dot(Row(a, i), Row(Transpose(b), j))
  {
    var t := Transpose(b);
    Mat3(Vec3(Dot(a.r0, t.r0), Dot(a.r0, t.r1), Dot(a.r0, t.r2)),
         Vec3(Dot(a.r1, t.r0), Dot(a.r1, t.r1), Dot(a.r1, t.r2)),
         Vec3(Dot(a.r2, t.r0), Dot(a.r2, t.r1), Dot(a.r2, t.r2)))
  }

  /** `getDeterminant`: cofactor expansion along the first row. */
  function Determinant(m: Mat3): (d: real)
    ensures d == Dot(m.r2, Cross(m.r0, m.r1))
  {
    m.r0.x * (m.r1.y * m.r2.z - m.r1.z * m.r2.y)
    - m.r0.y * (m.r1.x * m.r2.z - m.r1.z * m.r2.x)
    + m.r0.z * (m.r1.x * m.r2.y - m.r1.y * m.r2.x)
  }

  /** `getMatrix`: the rows as nested arrays. */
  function Rows(m: Mat3): (rows: seq<seq<real>>)
    ensures |rows| == 3 && forall i :: 0 <= i < 3 ==> |rows[i]| == 3
    ensures forall i: nat, j: nat :: i < 3 && j < 3 ==> rows[i][j] == Entry(m, i, j)
  {
    [[m.r0.x, m.r0.y, m.r0.z], [m.r1.x, m.r1.y, m.r1.z], [m.r2.x, m.r2.y, m.r2.z]]
  }

  /** `DCM.getMatrix` on the stored rows: an empty (uninitialised) matrix is an error, otherwise a copy of the rows. */
  function GetMatrix(stored: seq<seq<real>>): (r: Result<seq<seq<real>>>)
    ensures |stored| == 0 <==> r.Failure?
    ensures r.Failure? ==> r.error == "DCM matrix is not initialized"
    ensures r.Success? ==> r.value == stored
  {
    if |stored| == 0 then Failure("DCM matrix is not initialized") else Success(stored)
  }

  /** A matrix built by a constructor is always initialised, so `getMatrix` always succeeds on it. */
  lemma GetMatrixOfConstructed(m: Mat3)
    ensures GetMatrix(Rows(m)) == Success(Rows(m))
  {
  }

  /** `getInverse` is an alias of the transpose. */
  function GetInverse(m: Mat3): (t: Mat3)
    ensures Transpose(t) == m
  {
    Transpose(m)
  }

  /** The Kronecker delta, the entries of the identity. */
  function Kronecker(i: nat, j: nat): real {
    if i == j then 1.0 else 0.0
  }

  /** Every entry of m times its transpose is within tol of the identity's. */
  predicate OrthogonalWithin(m: Mat3, tol: real) {
    forall i: nat, j: nat :: i < 3 && j < 3 ==> EntryWithin(m, i, j, tol)
  }

  /** The rows are orthonormal: m times its transpose is exactly the identity. */
  predicate RowsOrthonormal(m: Mat3) {
    Dot(m.r0, m.r0) == 1.0 && Dot(m.r1, m.r1) == 1.0 && Dot(m.r2, m.r2) == 1.0
    && Dot(m.r0, m.r1) == 0.0 && Dot(m.r0, m.r2) == 0.0 && Dot(m.r1, m.r2) == 0.0
  }

  /**
   * Entry (i, j) of m times its transpose, summed in source order over the
   * first k terms; entry (k, j) of the transpose is entry (j, k) of m.
   */
  function ProductPrefix(m: Mat3, i: nat, j: nat, k: nat): real
    requires i < 3 && j < 3 && k <= 3
  {
    if k == 0 then 0.0 else ProductPrefix(m, i, j, k - 1) + Entry(m, i, k - 1) * Entry(m, j, k - 1)
  }

  /** The full sum is row i dotted with row j. */
  lemma ProductPrefixComplete(m: Mat3, i: nat, j: nat)
    requires i < 3 && j < 3
    ensures ProductPrefix(m, i, j, 3) == Dot(Row(m, i), Row(m, j))
  {
    var a, b := Row(m, i), Row(m, j);
    assert ProductPrefix(m, i, j, 1) == a.x * b.x;
    assert ProductPrefix(m, i, j, 2) == a.x * b.x + a.y * b.y;
  }

  /** Entry (i, j) of m times its transpose is within tol of the identity's. */
  predicate EntryWithin(m: Mat3, i: nat, j: nat, tol: real)
    requires i < 3 && j < 3
  {
    Abs(Dot(Row(m, i), Row(m, j)) - Kronecker(i, j)) <= tol
  }

  /** The innermost loop of `isOrthogonal`: entry (i, j) of m times its transpose. */
  method ProductEntry(m: Mat3, t: Mat3, i: nat, j: nat) returns (sum: real)
    requires i < 3 && j < 3 && t == Transpose(m)
    ensures sum == Dot(Row(m, i), Row(m, j))
  {
    sum := 0.0;
    for k := 0 to 3
      invariant sum == ProductPrefix(m, i, j, k)
    {
      sum := sum + Entry(m, i, k) * Entry(t, k, j);
    }
    ProductPrefixComplete(m, i, j);
  }

  /** `isOrthogonal(tolerance)`: the source's triple loop over m times its transpose, failing at the first entry off by more than the tolerance. */
  method IsOrthogonal(m: Mat3, tolerance: real) returns (r: bool)
    ensures r <==> OrthogonalWithin(m, tolerance)
  {
    var t := Transpose(m);
    for i := 0 to 3
      invariant forall i': nat, j': nat :: i' < i && j' < 3 ==> EntryWithin(m, i', j', tolerance)
    {
      for j := 0 to 3
        invariant forall j': nat :: j' < j ==> EntryWithin(m, i, j', tolerance)
      {
        var sum := ProductEntry(m, t, i, j);
        var expected := if i == j then 1.0 else 0.0;
        if Abs(sum - expected) > tolerance {
          assert !EntryWithin(m, i, j, tolerance);
          return false;
        }
      }
    }
    return true;
  }

  /** Orthonormal rows pass the tolerance test at every non-negative tolerance. */
  lemma OrthonormalPassesCheck(m: Mat3, tolerance: real)
    requires RowsOrthonormal(m) && 0.0 <= tolerance
    ensures OrthogonalWithin(m, tolerance)
  {
    forall i: nat, j: nat | i < 3 && j < 3
      ensures EntryWithin(m, i, j, tolerance)
    {
      assert Dot(Row(m, i), Row(m, j)) == Kronecker(i, j) by {
        if i == j {
        } else if i < j {
        } else {
          assert Dot(Row(m, i), Row(m, j)) == Dot(Row(m, j), Row(m, i));
        }
      }
    }
  }

  // ---------------------------------------------------------------------
  // The 3-2-1 Euler-angle matrix

  /** The sine and cosine of one angle, as the source obtains them from `Math.sin` and `Math.cos`. */
  datatype SinCos = SinCos(sin: real, cos: real)
  {
    /** The Pythagorean identity, the one fact about sine and cosine the proofs use. */
    predicate OnCircle() {
      sin * sin + cos * cos == 1.0
    }
  }

  /** The matrix every DCM class builds (rows as in the source), from roll phi, pitch theta and yaw psi. */
  function Euler321(phi: SinCos, theta: SinCos, psi: SinCos): Mat3
  {
    var sf := phi.sin; var cf := phi.cos;
    var st := theta.sin; var ct := theta.cos;
    var sp := psi.sin; var cp := psi.cos;
    Mat3(
      Vec3(ct * cp, ct * sp, -st),
      Vec3(sf * st * cp - cf * sp, sf * st * sp + cf * cp, sf * ct),
      Vec3(cf * st * cp + sf * sp, cf * st * sp - sf * cp, cf * ct))
  }

  /** Equal factors give equal products. */
  lemma SameFactor(x: real, a: real, b: real)
    requires a == b
    ensures x * a == x * b
  {
  }

  /*
   * The Euler matrix's row and column products, and the cross product of
   * its first two rows, expanded so that every unit-circle sum appears in a
   * factor (sin * sin + cos * cos - 1.0). These are identities of
   * polynomials and need no hypothesis. Each is then restated with the sums
   * passed in as kf, kt and kp: instantiating those with 1.0 leaves every
   * vanishing factor as (1.0 - 1.0), so no arithmetic is left for the call
   * site.
   */
  /** The first row's squared length, expanded. */
  lemma FirstRowNormExpanded(sf: real, cf: real, st: real, ct: real, sp: real, cp: real)
    ensures Dot(Vec3(ct * cp, ct * sp, -st), Vec3(ct * cp, ct * sp, -st))
      == ct * ct * (sp * sp + cp * cp - 1.0) + (st * st + ct * ct)
  {
  }

  /** The first row's squared length, with the unit-circle sums passed in. */
  lemma FirstRowNorm(sf: real, cf: real, st: real, ct: real, sp: real, cp: real, kt: real, kp: real)
    requires kt == st * st + ct * ct && kp == sp * sp + cp * cp
    ensures Dot(Vec3(ct * cp, ct * sp, -st), Vec3(ct * cp, ct * sp, -st))
      == ct * ct * (kp - 1.0) + kt
  {
    FirstRowNormExpanded(sf, cf, st, ct, sp, cp);
    SameFactor(ct * ct, kp - 1.0, sp * sp + cp * cp - 1.0);
  }

  /** The second row's squared length, expanded. */
  lemma SecondRowNormExpanded(sf: real, cf: real, st: real, ct: real, sp: real, cp: real)
    ensures Dot(Vec3(sf * st * cp - cf * sp, sf * st * sp + cf * cp, sf * ct), Vec3(sf * st * cp - cf * sp, sf * st * sp + cf * cp, sf * ct))
      == (sf * sf * st * st + cf * cf) * (sp * sp + cp * cp - 1.0) + sf * sf * (st * st + ct * ct - 1.0) + (sf * sf + cf * cf)
  {
  }

  /** The second row's squared length, with the unit-circle sums passed in. */
  lemma SecondRowNorm(sf: real, cf: real, st: real, ct: real, sp: real, cp: real, kf: real, kt: real, kp: real)
    requires kf == sf * sf + cf * cf && kt == st * st + ct * ct && kp == sp * sp + cp * cp
    ensures Dot(Vec3(sf * st * cp - cf * sp, sf * st * sp + cf * cp, sf * ct), Vec3(sf * st * cp - cf * sp, sf * st * sp + cf * cp, sf * ct))
      == (sf * sf * st * st + cf * cf) * (kp - 1.0) + sf * sf * (kt - 1.0) + kf
  {
    SecondRowNormExpanded(sf, cf, st, ct, sp, cp);
    SameFactor(sf * sf * st * st + cf * cf, kp - 1.0, sp * sp + cp * cp - 1.0);
    SameFactor(sf * sf, kt - 1.0, st * st + ct * ct - 1.0);
  }

  /** The third row's squared length, expanded. */
  lemma ThirdRowNormExpanded(sf: real, cf: real, st: real, ct: real, sp: real, cp: real)
    ensures Dot(Vec3(cf * st * cp + sf * sp, cf * st * sp - sf * cp, cf * ct), Vec3(cf * st * cp + sf * sp, cf * st * sp - sf * cp, cf * ct))
      == (cf * cf * st * st + sf * sf) * (sp * sp + cp * cp - 1.0) + cf * cf * (st * st + ct * ct - 1.0) + (sf * sf + cf * cf)
  {
  }

  /** The third row's squared length, with the unit-circle sums passed in. */
  lemma ThirdRowNorm(sf: real, cf: real, st: real, ct: real, sp: real, cp: real, kf: real, kt: real, kp: real)
    requires kf == sf * sf + cf * cf && kt == st * st + ct * ct && kp == sp * sp + cp * cp
    ensures Dot(Vec3(cf * st * cp + sf * sp, cf * st * sp - sf * cp, cf * ct), Vec3(cf * st * cp + sf * sp, cf * st * sp - sf * cp, cf * ct))
      == (cf * cf * st * st + sf * sf) * (kp - 1.0) + cf * cf * (kt - 1.0) + kf
  {
    ThirdRowNormExpanded(sf, cf, st, ct, sp, cp);
    SameFactor(cf * cf * st * st + sf * sf, kp - 1.0, sp * sp + cp * cp - 1.0);
    SameFactor(cf * cf, kt - 1.0, st * st + ct * ct - 1.0);
  }

  /** The first two rows' dot product, expanded. */
  lemma FirstSecondRowDotExpanded(sf: real, cf: real, st: real, ct: real, sp: real, cp: real)
    ensures Dot(Vec3(ct * cp, ct * sp, -st), Vec3(sf * st * cp - cf * sp, sf * st * sp + cf * cp, sf * ct))
      == sf * st * ct * (sp * sp + cp * cp - 1.0)
  {
  }

  /** The first two rows' dot product, with the unit-circle sums passed in. */
  lemma FirstSecondRowDot(sf: real, cf: real, st: real, ct: real, sp: real, cp: real, kp: real)
    requires kp == sp * sp + cp * cp
    ensures Dot(Vec3(ct * cp, ct * sp, -st), Vec3(sf * st * cp - cf * sp, sf * st * sp + cf * cp, sf * ct))
      == sf * st * ct * (kp - 1.0)
  {
    FirstSecondRowDotExpanded(sf, cf, st, ct, sp, cp);
    SameFactor(sf * st * ct, kp - 1.0, sp * sp + cp * cp - 1.0);
  }

  /** The first and third rows' dot product, expanded. */
  lemma FirstThirdRowDotExpanded(sf: real, cf: real, st: real, ct: real, sp: real, cp: real)
    ensures Dot(Vec3(ct * cp, ct * sp, -st), Vec3(cf * st * cp + sf * sp, cf * st * sp - sf * cp, cf * ct))
      == cf * st * ct * (sp * sp + cp * cp - 1.0)
  {
  }

  /** The first and third rows' dot product, with the unit-circle sums passed in. */
  lemma FirstThirdRowDot(sf: real, cf: real, st: real, ct: real, sp: real, cp: real, kp: real)
    requires kp == sp * sp + cp * cp
    ensures Dot(Vec3(ct * cp, ct * sp, -st), Vec3(cf * st * cp + sf * sp, cf * st * sp - sf * cp, cf * ct))
      == cf * st * ct * (kp - 1.0)
  {
    FirstThirdRowDotExpanded(sf, cf, st, ct, sp, cp);
    SameFactor(cf * st * ct, kp - 1.0, sp * sp + cp * cp - 1.0);
  }

  /** The last two rows' dot product, expanded. */
  lemma SecondThirdRowDotExpanded(sf: real, cf: real, st: real, ct: real, sp: real, cp: real)
    ensures Dot(Vec3(sf * st * cp - cf * sp, sf * st * sp + cf * cp, sf * ct), Vec3(cf * st * cp + sf * sp, cf * st * sp - sf * cp, cf * ct))
      == (sf * cf * st * st - sf * cf) * (sp * sp + cp * cp - 1.0) + sf * cf * (st * st + ct * ct - 1.0)
  {
  }

  /** The last two rows' dot product, with the unit-circle sums passed in. */
  lemma SecondThirdRowDot(sf: real, cf: real, st: real, ct: real, sp: real, cp: real, kt: real, kp: real)
    requires kt == st * st + ct * ct && kp == sp * sp + cp * cp
    ensures Dot(Vec3(sf * st * cp - cf * sp, sf * st * sp + cf * cp, sf * ct), Vec3(cf * st * cp + sf * sp, cf * st * sp - sf * cp, cf * ct))
      == (sf * cf * st * st - sf * cf) * (kp - 1.0) + sf * cf * (kt - 1.0)
  {
    SecondThirdRowDotExpanded(sf, cf, st, ct, sp, cp);
    SameFactor(sf * cf * st * st - sf * cf, kp - 1.0, sp * sp + cp * cp - 1.0);
    SameFactor(sf * cf, kt - 1.0, st * st + ct * ct - 1.0);
  }

  /** The first column's squared length, expanded. */
  lemma FirstColumnNormExpanded(sf: real, cf: real, st: real, ct: real, sp: real, cp: real)
    ensures Dot(Vec3(ct * cp, sf * st * cp - cf * sp, cf * st * cp + sf * sp), Vec3(ct * cp, sf * st * cp - cf * sp, cf * st * cp + sf * sp))
      == (st * st * cp * cp + sp * sp) * (sf * sf + cf * cf - 1.0) + cp * cp * (st * st + ct * ct - 1.0) + (sp * sp + cp * cp)
  {
  }

  /** The first column's squared length, with the unit-circle sums passed in. */
  lemma FirstColumnNorm(sf: real, cf: real, st: real, ct: real, sp: real, cp: real, kf: real, kt: real, kp: real)
    requires kf == sf * sf + cf * cf && kt == st * st + ct * ct && kp == sp * sp + cp * cp
    ensures Dot(Vec3(ct * cp, sf * st * cp - cf * sp, cf * st * cp + sf * sp), Vec3(ct * cp, sf * st * cp - cf * sp, cf * st * cp + sf * sp))
      == (st * st * cp * cp + sp * sp) * (kf - 1.0) + cp * cp * (kt - 1.0) + kp
  {
    FirstColumnNormExpanded(sf, cf, st, ct, sp, cp);
    SameFactor(st * st * cp * cp + sp * sp, kf - 1.0, sf * sf + cf * cf - 1.0);
    SameFactor(cp * cp, kt - 1.0, st * st + ct * ct - 1.0);
  }

  /** The second column's squared length, expanded. */
  lemma SecondColumnNormExpanded(sf: real, cf: real, st: real, ct: real, sp: real, cp: real)
    ensures Dot(Vec3(ct * sp, sf * st * sp + cf * cp, cf * st * sp - sf * cp), Vec3(ct * sp, sf * st * sp + cf * cp, cf * st * sp - sf * cp))
      == (st * st * sp * sp + cp * cp) * (sf * sf + cf * cf - 1.0) + sp * sp * (st * st + ct * ct - 1.0) + (sp * sp + cp * cp)
  {
  }

  /** The second column's squared length, with the unit-circle sums passed in. */
  lemma SecondColumnNorm(sf: real, cf: real, st: real, ct: real, sp: real, cp: real, kf: real, kt: real, kp: real)
    requires kf == sf * sf + cf * cf && kt == st * st + ct * ct && kp == sp * sp + cp * cp
    ensures Dot(Vec3(ct * sp, sf * st * sp + cf * cp, cf * st * sp - sf * cp), Vec3(ct * sp, sf * st * sp + cf * cp, cf * st * sp - sf * cp))
      == (st * st * sp * sp + cp * cp) * (kf - 1.0) + sp * sp * (kt - 1.0) + kp
  {
    SecondColumnNormExpanded(sf, cf, st, ct, sp, cp);
    SameFactor(st * st * sp * sp + cp * cp, kf - 1.0, sf * sf + cf * cf - 1.0);
    SameFactor(sp * sp, kt - 1.0, st * st + ct * ct - 1.0);
  }

  /** The third column's squared length, expanded. */
  lemma ThirdColumnNormExpanded(sf: real, cf: real, st: real, ct: real, sp: real, cp: real)
    ensures Dot(Vec3(-st, sf * ct, cf * ct), Vec3(-st, sf * ct, cf * ct))
      == ct * ct * (sf * sf + cf * cf - 1.0) + (st * st + ct * ct)
  {
  }

  /** The third column's squared length, with the unit-circle sums passed in. */
  lemma ThirdColumnNorm(sf: real, cf: real, st: real, ct: real, sp: real, cp: real, kf: real, kt: real)
    requires kf == sf * sf + cf * cf && kt == st * st + ct * ct
    ensures Dot(Vec3(-st, sf * ct, cf * ct), Vec3(-st, sf * ct, cf * ct))
      == ct * ct * (kf - 1.0) + kt
  {
    ThirdColumnNormExpanded(sf, cf, st, ct, sp, cp);
    SameFactor(ct * ct, kf - 1.0, sf * sf + cf * cf - 1.0);
  }

  /** The first two columns' dot product, expanded. */
  lemma FirstSecondColumnDotExpanded(sf: real, cf: real, st: real, ct: real, sp: real, cp: real)
    ensures Dot(Vec3(ct * cp, sf * st * cp - cf * sp, cf * st * cp + sf * sp), Vec3(ct * sp, sf * st * sp + cf * cp, cf * st * sp - sf * cp))
      == (st * st * cp * sp - cp * sp) * (sf * sf + cf * cf - 1.0) + cp * sp * (st * st + ct * ct - 1.0)
  {
  }

  /** The first two columns' dot product, with the unit-circle sums passed in. */
  lemma FirstSecondColumnDot(sf: real, cf: real, st: real, ct: real, sp: real, cp: real, kf: real, kt: real)
    requires kf == sf * sf + cf * cf && kt == st * st + ct * ct
    ensures Dot(Vec3(ct * cp, sf * st * cp - cf * sp, cf * st * cp + sf * sp), Vec3(ct * sp, sf * st * sp + cf * cp, cf * st * sp - sf * cp))
      == (st * st * cp * sp - cp * sp) * (kf - 1.0) + cp * sp * (kt - 1.0)
  {
    FirstSecondColumnDotExpanded(sf, cf, st, ct, sp, cp);
    SameFactor(st * st * cp * sp - cp * sp, kf - 1.0, sf * sf + cf * cf - 1.0);
    SameFactor(cp * sp, kt - 1.0, st * st + ct * ct - 1.0);
  }

  /** The first and third columns' dot product, expanded. */
  lemma FirstThirdColumnDotExpanded(sf: real, cf: real, st: real, ct: real, sp: real, cp: real)
    ensures Dot(Vec3(ct * cp, sf * st * cp - cf * sp, cf * st * cp + sf * sp), Vec3(-st, sf * ct, cf * ct))
      == st * ct * cp * (sf * sf + cf * cf - 1.0)
  {
  }

  /** The first and third columns' dot product, with the unit-circle sums passed in. */
  lemma FirstThirdColumnDot(sf: real, cf: real, st: real, ct: real, sp: real, cp: real, kf: real)
    requires kf == sf * sf + cf * cf
    ensures Dot(Vec3(ct * cp, sf * st * cp - cf * sp, cf * st * cp + sf * sp), Vec3(-st, sf * ct, cf * ct))
      == st * ct * cp * (kf - 1.0)
  {
    FirstThirdColumnDotExpanded(sf, cf, st, ct, sp, cp);
    SameFactor(st * ct * cp, kf - 1.0, sf * sf + cf * cf - 1.0);
  }

  /** The last two columns' dot product, expanded. */
  lemma SecondThirdColumnDotExpanded(sf: real, cf: real, st: real, ct: real, sp: real, cp: real)
    ensures Dot(Vec3(ct * sp, sf * st * sp + cf * cp, cf * st * sp - sf * cp), Vec3(-st, sf * ct, cf * ct))
      == st * ct * sp * (sf * sf + cf * cf - 1.0)
  {
  }

  /** The last two columns' dot product, with the unit-circle sums passed in. */
  lemma SecondThirdColumnDot(sf: real, cf: real, st: real, ct: real, sp: real, cp: real, kf: real)
    requires kf == sf * sf + cf * cf
    ensures Dot(Vec3(ct * sp, sf * st * sp + cf * cp, cf * st * sp - sf * cp), Vec3(-st, sf * ct, cf * ct))
      == st * ct * sp * (kf - 1.0)
  {
    SecondThirdColumnDotExpanded(sf, cf, st, ct, sp, cp);
    SameFactor(st * ct * sp, kf - 1.0, sf * sf + cf * cf - 1.0);
  }

  /** The first component of the first two rows' cross product, expanded. */
  lemma CrossFirstComponentExpanded(sf: real, cf: real, st: real, ct: real, sp: real, cp: real)
    ensures Cross(Vec3(ct * cp, ct * sp, -st), Vec3(sf * st * cp - cf * sp, sf * st * sp + cf * cp, sf * ct)).x
      == cf * st * cp + sf * sp + sf * sp * (st * st + ct * ct - 1.0)
  {
  }

  /** The first component of the first two rows' cross product, with the unit-circle sums passed in. */
  lemma CrossFirstComponent(sf: real, cf: real, st: real, ct: real, sp: real, cp: real, kt: real)
    requires kt == st * st + ct * ct
    ensures Cross(Vec3(ct * cp, ct * sp, -st), Vec3(sf * st * cp - cf * sp, sf * st * sp + cf * cp, sf * ct)).x
      == cf * st * cp + sf * sp + sf * sp * (kt - 1.0)
  {
    CrossFirstComponentExpanded(sf, cf, st, ct, sp, cp);
    SameFactor(sf * sp, kt - 1.0, st * st + ct * ct - 1.0);
  }

  /** The second component of the first two rows' cross product, expanded. */
  lemma CrossSecondComponentExpanded(sf: real, cf: real, st: real, ct: real, sp: real, cp: real)
    ensures Cross(Vec3(ct * cp, ct * sp, -st), Vec3(sf * st * cp - cf * sp, sf * st * sp + cf * cp, sf * ct)).y
      == cf * st * sp - sf * cp - sf * cp * (st * st + ct * ct - 1.0)
  {
  }

  /** The second component of the first two rows' cross product, with the unit-circle sums passed in. */
  lemma CrossSecondComponent(sf: real, cf: real, st: real, ct: real, sp: real, cp: real, kt: real)
    requires kt == st * st + ct * ct
    ensures Cross(Vec3(ct * cp, ct * sp, -st), Vec3(sf * st * cp - cf * sp, sf * st * sp + cf * cp, sf * ct)).y
      == cf * st * sp - sf * cp - sf * cp * (kt - 1.0)
  {
    CrossSecondComponentExpanded(sf, cf, st, ct, sp, cp);
    SameFactor(sf * cp, kt - 1.0, st * st + ct * ct - 1.0);
  }

  /** The third component of the first two rows' cross product, expanded. */
  lemma CrossThirdComponentExpanded(sf: real, cf: real, st: real, ct: real, sp: real, cp: real)
    ensures Cross(Vec3(ct * cp, ct * sp, -st), Vec3(sf * st * cp - cf * sp, sf * st * sp + cf * cp, sf * ct)).z
      == cf * ct + cf * ct * (sp * sp + cp * cp - 1.0)
  {
  }

  /** The third component of the first two rows' cross product, with the unit-circle sums passed in. */
  lemma CrossThirdComponent(sf: real, cf: real, st: real, ct: real, sp: real, cp: real, kp: real)
    requires kp == sp * sp + cp * cp
    ensures Cross(Vec3(ct * cp, ct * sp, -st), Vec3(sf * st * cp - cf * sp, sf * st * sp + cf * cp, sf * ct)).z
      == cf * ct + cf * ct * (kp - 1.0)
  {
    CrossThirdComponentExpanded(sf, cf, st, ct, sp, cp);
    SameFactor(cf * ct, kp - 1.0, sp * sp + cp * cp - 1.0);
  }

  /** For angles on the unit circle the rows of the Euler matrix have unit length. */
  lemma Euler321RowNorms(phi: SinCos, theta: SinCos, psi: SinCos)
    requires phi.OnCircle() && theta.OnCircle() && psi.OnCircle()
    ensures var m := Euler321(phi, theta, psi);
      Dot(m.r0, m.r0) == 1.0 && Dot(m.r1, m.r1) == 1.0 && Dot(m.r2, m.r2) == 1.0
  {
    var sf, cf, st, ct, sp, cp := phi.sin, phi.cos, theta.sin, theta.cos, psi.sin, psi.cos;
    FirstRowNorm(sf, cf, st, ct, sp, cp, 1.0, 1.0);
    SecondRowNorm(sf, cf, st, ct, sp, cp, 1.0, 1.0, 1.0);
    ThirdRowNorm(sf, cf, st, ct, sp, cp, 1.0, 1.0, 1.0);
  }

  /** For angles on the unit circle the rows of the Euler matrix are mutually orthogonal. */
  lemma Euler321RowDots(phi: SinCos, theta: SinCos, psi: SinCos)
    requires phi.OnCircle() && theta.OnCircle() && psi.OnCircle()
    ensures var m := Euler321(phi, theta, psi);
      Dot(m.r0, m.r1) == 0.0 && Dot(m.r0, m.r2) == 0.0 && Dot(m.r1, m.r2) == 0.0
  {
    var sf, cf, st, ct, sp, cp := phi.sin, phi.cos, theta.sin, theta.cos, psi.sin, psi.cos;
    FirstSecondRowDot(sf, cf, st, ct, sp, cp, 1.0);
    FirstThirdRowDot(sf, cf, st, ct, sp, cp, 1.0);
    SecondThirdRowDot(sf, cf, st, ct, sp, cp, 1.0, 1.0);
  }

  /** For angles on the unit circle the rows of the Euler matrix are orthonormal. */
  lemma Euler321RowsOrthonormal(phi: SinCos, theta: SinCos, psi: SinCos)
    requires phi.OnCircle() && theta.OnCircle() && psi.OnCircle()
    ensures RowsOrthonormal(Euler321(phi, theta, psi))
  {
    Euler321RowNorms(phi, theta, psi);
    Euler321RowDots(phi, theta, psi);
  }

  /** The columns of the Euler matrix, written out. */
  lemma Euler321Columns(phi: SinCos, theta: SinCos, psi: SinCos)
    ensures var t := Transpose(Euler321(phi, theta, psi));
      && t.r0 == Vec3(theta.cos * psi.cos, phi.sin * theta.sin * psi.cos - phi.cos * psi.sin, phi.cos * theta.sin * psi.cos + phi.sin * psi.sin)
      && t.r1 == Vec3(theta.cos * psi.sin, phi.sin * theta.sin * psi.sin + phi.cos * psi.cos, phi.cos * theta.sin * psi.sin - phi.sin * psi.cos)
      && t.r2 == Vec3(-theta.sin, phi.sin * theta.cos, phi.cos * theta.cos)
  {
  }

  /** For angles on the unit circle the columns of the Euler matrix have unit length. */
  lemma Euler321ColumnNorms(phi: SinCos, theta: SinCos, psi: SinCos)
    requires phi.OnCircle() && theta.OnCircle() && psi.OnCircle()
    ensures var t := Transpose(Euler321(phi, theta, psi));
      Dot(t.r0, t.r0) == 1.0 && Dot(t.r1, t.r1) == 1.0 && Dot(t.r2, t.r2) == 1.0
  {
    var sf, cf, st, ct, sp, cp := phi.sin, phi.cos, theta.sin, theta.cos, psi.sin, psi.cos;
    Euler321Columns(phi, theta, psi);
    FirstColumnNorm(sf, cf, st, ct, sp, cp, 1.0, 1.0, 1.0);
    SecondColumnNorm(sf, cf, st, ct, sp, cp, 1.0, 1.0, 1.0);
    ThirdColumnNorm(sf, cf, st, ct, sp, cp, 1.0, 1.0);
  }

  /** For angles on the unit circle the columns of the Euler matrix are mutually orthogonal. */
  lemma Euler321ColumnDots(phi: SinCos, theta: SinCos, psi: SinCos)
    requires phi.OnCircle() && theta.OnCircle() && psi.OnCircle()
    ensures var t := Transpose(Euler321(phi, theta, psi));
      Dot(t.r0, t.r1) == 0.0 && Dot(t.r0, t.r2) == 0.0 && Dot(t.r1, t.r2) == 0.0
  {
    var sf, cf, st, ct, sp, cp := phi.sin, phi.cos, theta.sin, theta.cos, psi.sin, psi.cos;
    Euler321Columns(phi, theta, psi);
    FirstSecondColumnDot(sf, cf, st, ct, sp, cp, 1.0, 1.0);
    FirstThirdColumnDot(sf, cf, st, ct, sp, cp, 1.0);
    SecondThirdColumnDot(sf, cf, st, ct, sp, cp, 1.0);
  }

  /** For angles on the unit circle the columns of the Euler matrix are orthonormal too. */
  lemma Euler321ColumnsOrthonormal(phi: SinCos, theta: SinCos, psi: SinCos)
    requires phi.OnCircle() && theta.OnCircle() && psi.OnCircle()
    ensures RowsOrthonormal(Transpose(Euler321(phi, theta, psi)))
  {
    Euler321ColumnNorms(phi, theta, psi);
    Euler321ColumnDots(phi, theta, psi);
  }

  /** The third row is the cross product of the first two: the frame is right-handed. */
  lemma Euler321RightHanded(phi: SinCos, theta: SinCos, psi: SinCos)
    requires phi.OnCircle() && theta.OnCircle() && psi.OnCircle()
    ensures Euler321(phi, theta, psi).r2 == Cross(Euler321(phi, theta, psi).r0, Euler321(phi, theta, psi).r1)
  {
    var sf, cf, st, ct, sp, cp := phi.sin, phi.cos, theta.sin, theta.cos, psi.sin, psi.cos;
    CrossFirstComponent(sf, cf, st, ct, sp, cp, 1.0);
    CrossSecondComponent(sf, cf, st, ct, sp, cp, 1.0);
    CrossThirdComponent(sf, cf, st, ct, sp, cp, 1.0);
  }

  /** For angles on the unit circle the determinant is exactly 1: the matrix is a proper rotation. */
  lemma Euler321Determinant(phi: SinCos, theta: SinCos, psi: SinCos)
    requires phi.OnCircle() && theta.OnCircle() && psi.OnCircle()
    ensures Determinant(Euler321(phi, theta, psi)) == 1.0
  {
    Euler321RightHanded(phi, theta, psi);
    Euler321RowsOrthonormal(phi, theta, psi);
  }

  /** The sines and cosines of one set of Euler angles: yaw psi, pitch theta and roll phi. */
  datatype EulerTrig = EulerTrig(psi: SinCos, theta: SinCos, phi: SinCos)
  {
    predicate Valid() {
      psi.OnCircle() && theta.OnCircle() && phi.OnCircle()
    }
  }

  /** The sine and cosine of a zero angle. */
  const Level: SinCos := SinCos(0.0, 1.0)

  /** With every angle zero the Euler matrix is the identity. */
  lemma Euler321Level()
    ensures Euler321(Level, Level, Level) == Identity()
  {
  }

  /** Dotting with a linear combination of three vectors is the same combination of the three dot products. */
  lemma DotCombination(a: Vec3, x: real, p: Vec3, y: real, q: Vec3, z: real, r: Vec3)
    ensures Dot(a, Vec3(x * p.x + y * q.x + z * r.x, x * p.y + y * q.y + z * r.y, x * p.z + y * q.z + z * r.z))
      == x * Dot(a, p) + y * Dot(a, q) + z * Dot(a, r)
  {
  }

  /** Applying the transpose yields the combination of the rows weighted by the vector's components. */
  lemma ApplyTransposeIsCombination(m: Mat3, v: Vec3)
    ensures Apply(Transpose(m), v)
      == Vec3(v.x * m.r0.x + v.y * m.r1.x + v.z * m.r2.x,
              v.x * m.r0.y + v.y * m.r1.y + v.z * m.r2.y,
              v.x * m.r0.z + v.y * m.r1.z + v.z * m.r2.z)
  {
  }

  /** A matrix with orthonormal rows undoes its transpose. */
  lemma ApplyUndoesTranspose(m: Mat3, v: Vec3)
    requires RowsOrthonormal(m)
    ensures Apply(m, Apply(Transpose(m), v)) == v
  {
    ApplyTransposeIsCombination(m, v);
    DotCombination(m.r0, v.x, m.r0, v.y, m.r1, v.z, m.r2);
    DotCombination(m.r1, v.x, m.r0, v.y, m.r1, v.z, m.r2);
    DotCombination(m.r2, v.x, m.r0, v.y, m.r1, v.z, m.r2);
    assert Dot(m.r1, m.r0) == Dot(m.r0, m.r1);
    assert Dot(m.r2, m.r0) == Dot(m.r0, m.r2);
    assert Dot(m.r2, m.r1) == Dot(m.r1, m.r2);
  }

  /** The transpose of a matrix with orthonormal columns undoes the matrix. */
  lemma TransposeUndoesApply(m: Mat3, v: Vec3)
    requires RowsOrthonormal(Transpose(m))
    ensures Apply(Transpose(m), Apply(m, v)) == v
  {
    var t := Transpose(m);
    assert Transpose(t) == m;
    ApplyUndoesTranspose(t, v);
  }

  /** For valid Euler angles the Euler matrix and its transpose undo each other, in both orders. */
  lemma Euler321RoundTrips(e: EulerTrig, v: Vec3)
    requires e.Valid()
    ensures Apply(Transpose(Euler321(e.phi, e.theta, e.psi)), Apply(Euler321(e.phi, e.theta, e.psi), v)) == v
    ensures Apply(Euler321(e.phi, e.theta, e.psi), Apply(Transpose(Euler321(e.phi, e.theta, e.psi)), v)) == v
  {
    Euler321ColumnsOrthonormal(e.phi, e.theta, e.psi);
    TransposeUndoesApply(Euler321(e.phi, e.theta, e.psi), v);
    Euler321RowsOrthonormal(e.phi, e.theta, e.psi);
    ApplyUndoesTranspose(Euler321(e.phi, e.theta, e.psi), v);
  }

  /** A matrix with orthonormal columns keeps the length of every vector. */
  lemma ApplyKeepsLength(m: Mat3, v: Vec3)
    requires RowsOrthonormal(Transpose(m))
    ensures Dot(Apply(m, v), Apply(m, v)) == Dot(v, v)
  {
    var t := Transpose(m);
    assert Transpose(t) == m;
    ApplyTransposeIsCombination(t, v);
    var w := Apply(m, v);
    DotCombination(w, v.x, t.r0, v.y, t.r1, v.z, t.r2);
    DotCombination(t.r0, v.x, t.r0, v.y, t.r1, v.z, t.r2);
    DotCombination(t.r1, v.x, t.r0, v.y, t.r1, v.z, t.r2);
    DotCombination(t.r2, v.x, t.r0, v.y, t.r1, v.z, t.r2);
    assert Dot(t.r1, t.r0) == Dot(t.r0, t.r1);
    assert Dot(t.r2, t.r0) == Dot(t.r0, t.r2);
    assert Dot(t.r2, t.r1) == Dot(t.r1, t.r2);
    assert Dot(w, t.r0) == Dot(t.r0, w);
    assert Dot(w, t.r1) == Dot(t.r1, w);
    assert Dot(w, t.r2) == Dot(t.r2, w);
  }

  /** The identity matrix leaves every vector as it is. */
  lemma IdentityKeepsVectors(v: Vec3)
    ensures Apply(Identity(), v) == v
  {
  }

  /** A matrix with orthonormal rows and columns has its transpose as a two-sided inverse. */
  lemma OrthonormalInverse(m: Mat3)
    requires RowsOrthonormal(m) && RowsOrthonormal(Transpose(m))
    ensures Mul(m, Transpose(m)) == Identity()
    ensures Mul(Transpose(m), m) == Identity()
  {
    var t := Transpose(m);
    assert Transpose(t) == m;
    assert Dot(m.r1, m.r0) == Dot(m.r0, m.r1);
    assert Dot(m.r2, m.r0) == Dot(m.r0, m.r2);
    assert Dot(m.r2, m.r1) == Dot(m.r1, m.r2);
    assert Dot(t.r1, t.r0) == Dot(t.r0, t.r1);
    assert Dot(t.r2, t.r0) == Dot(t.r0, t.r2);
    assert Dot(t.r2, t.r1) == Dot(t.r1, t.r2);
  }

  /** Transposing keeps the determinant. */
  lemma TransposeDeterminant(m: Mat3)
    ensures Determinant(Transpose(m)) == Determinant(m)
  {
  }

  /** With zero roll and yaw only the pitch terms remain. */
  lemma Euler321PitchOnly(phi: SinCos, theta: SinCos, psi: SinCos)
    requires phi.sin == 0.0 && phi.cos == 1.0 && psi.sin == 0.0 && psi.cos == 1.0
    ensures Euler321(phi, theta, psi)
      == Mat3(Vec3(theta.cos, 0.0, -theta.sin), Vec3(0.0, 1.0, 0.0), Vec3(theta.sin, 0.0, theta.cos))
  {
  }

  /** With zero pitch and yaw only the roll terms remain. */
  lemma Euler321RollOnly(phi: SinCos, theta: SinCos, psi: SinCos)
    requires theta.sin == 0.0 && theta.cos == 1.0 && psi.sin == 0.0 && psi.cos == 1.0
    ensures Euler321(phi, theta, psi)
      == Mat3(Vec3(1.0, 0.0, 0.0), Vec3(0.0, phi.cos, phi.sin), Vec3(0.0, -phi.sin, phi.cos))
  {
  }

  /** With zero roll and pitch only the yaw terms remain. */
  lemma Euler321YawOnly(phi: SinCos, theta: SinCos, psi: SinCos)
    requires phi.sin == 0.0 && phi.cos == 1.0 && theta.sin == 0.0 && theta.cos == 1.0
    ensures Euler321(phi, theta, psi)
      == Mat3(Vec3(psi.cos, psi.sin, 0.0), Vec3(-psi.sin, psi.cos, 0.0), Vec3(0.0, 0.0, 1.0))
  {
  }

  /** The frame rotation about the x axis through roll phi. */
  function RollRotation(phi: SinCos): Mat3 {
    Mat3(Vec3(1.0, 0.0, 0.0), Vec3(0.0, phi.cos, phi.sin), Vec3(0.0, -phi.sin, phi.cos))
  }

  /** The frame rotation about the y axis through pitch theta. */
  function PitchRotation(theta: SinCos): Mat3 {
    Mat3(Vec3(theta.cos, 0.0, -theta.sin), Vec3(0.0, 1.0, 0.0), Vec3(theta.sin, 0.0, theta.cos))
  }

  /** The frame rotation about the z axis through yaw psi. */
  function YawRotation(psi: SinCos): Mat3 {
    Mat3(Vec3(psi.cos, psi.sin, 0.0), Vec3(-psi.sin, psi.cos, 0.0), Vec3(0.0, 0.0, 1.0))
  }

  /** The 3-2-1 matrix is yaw first, then pitch, then roll: the product of the three elementary rotations. */
  lemma Euler321Composes(phi: SinCos, theta: SinCos, psi: SinCos)
    ensures Euler321(phi, theta, psi) == Mul(RollRotation(phi), Mul(PitchRotation(theta), YawRotation(psi)))
  {
  }
}
