/** Vectors and small matrices over the reals: the part of nalgebra_glm the
    renderer relies on (Vec2/Vec3/Vec4, Mat3/Mat4, products, transpose, the
    3x3 determinant and try_inverse). Arithmetic here is exact; f32 rounding
    is not modelled. */
module Linear {

  datatype Option<T> = None | Some(value: T)

  datatype Vec2 = Vec2(x: real, y: real)
  datatype Vec3 = Vec3(x: real, y: real, z: real)
  datatype Vec4 = Vec4(x: real, y: real, z: real, w: real)

  function Dot3(a: Vec3, b: Vec3): real {
    a.x * b.x + a.y * b.y + a.z * b.z
  }

  function Dot4(a: Vec4, b: Vec4): real {
    a.x * b.x + a.y * b.y + a.z * b.z + a.w * b.w
  }

  function Sub3(a: Vec3, b: Vec3): Vec3 {
    Vec3(a.x - b.x, a.y - b.y, a.z - b.z)
  }

  /** A 4x4 matrix stored by rows, in the argument order of Mat4::new. */
  datatype Mat4 = Mat4(r0: Vec4, r1: Vec4, r2: Vec4, r3: Vec4)

  /** A 3x3 matrix stored by rows. */
  datatype Mat3 = Mat3(r0: Vec3, r1: Vec3, r2: Vec3)

  function Col4(m: Mat4, j: nat): Vec4
    requires j < 4
  {
    if j == 0 then Vec4(m.r0.x, m.r1.x, m.r2.x, m.r3.x)
    else if j == 1 then Vec4(m.r0.y, m.r1.y, m.r2.y, m.r3.y)
    else if j == 2 then Vec4(m.r0.z, m.r1.z, m.r2.z, m.r3.z)
    else Vec4(m.r0.w, m.r1.w, m.r2.w, m.r3.w)
  }

  /** The matrix-vector product m * v. */
  function MulVec4(m: Mat4, v: Vec4): Vec4 {
    Vec4(Dot4(m.r0, v), Dot4(m.r1, v), Dot4(m.r2, v), Dot4(m.r3, v))
  }

  function RowTimes4(r: Vec4, b: Mat4): Vec4 {
    Vec4(Dot4(r, Col4(b, 0)), Dot4(r, Col4(b, 1)), Dot4(r, Col4(b, 2)), Dot4(r, Col4(b, 3)))
  }

  /** The matrix product a * b. */
  function Mul4(a: Mat4, b: Mat4): Mat4 {
    Mat4(RowTimes4(a.r0, b), RowTimes4(a.r1, b), RowTimes4(a.r2, b), RowTimes4(a.r3, b))
  }

  /** mat4_to_mat3: the upper-left 3x3 block. */
  function Mat4ToMat3(m: Mat4): Mat3 {
    Mat3(Vec3(m.r0.x, m.r0.y, m.r0.z),
         Vec3(m.r1.x, m.r1.y, m.r1.z),
         Vec3(m.r2.x, m.r2.y, m.r2.z))
  }

  function Identity3(): Mat3 {
    Mat3(Vec3(1.0, 0.0, 0.0), Vec3(0.0, 1.0, 0.0), Vec3(0.0, 0.0, 1.0))
  }

  function Transpose3(m: Mat3): Mat3 {
    Mat3(Vec3(m.r0.x, m.r1.x, m.r2.x),
         Vec3(m.r0.y, m.r1.y, m.r2.y),
         Vec3(m.r0.z, m.r1.z, m.r2.z))
  }

  function MulVec3(m: Mat3, v: Vec3): Vec3 {
    Vec3(Dot3(m.r0, v), Dot3(m.r1, v), Dot3(m.r2, v))
  }

  /** The cross product u x v. */
  function Cross3(u: Vec3, v: Vec3): Vec3 {
    Vec3(u.y * v.z - u.z * v.y, u.z * v.x - u.x * v.z, u.x * v.y - u.y * v.x)
  }

  /** Determinant by cofactor expansion along the first row: the cofactors
      of the first row are the cross product of the other two rows. */
  function Det3(m: Mat3): real {
    Dot3(Cross3(m.r1, m.r2), m.r0)
  }

  /** The adjugate (transposed cofactor matrix): its columns are the cross
      products of the rows taken in cyclic order. */
  function Adjugate3(m: Mat3): Mat3 {
    Transpose3(Mat3(Cross3(m.r1, m.r2), Cross3(m.r2, m.r0), Cross3(m.r0, m.r1)))
  }

  function DivVec3(v: Vec3, d: real): Vec3
    requires d != 0.0
  {
    Vec3(v.x / d, v.y / d, v.z / d)
  }

  function DivMat3(m: Mat3, d: real): Mat3
    requires d != 0.0
  {
    Mat3(DivVec3(m.r0, d), DivVec3(m.r1, d), DivVec3(m.r2, d))
  }

  /** try_inverse on a 3x3 matrix: no inverse when the determinant is zero,
      otherwise the adjugate divided by the determinant. */
  function TryInverse3(m: Mat3): (r: Option<Mat3>)
    ensures r.None? <==> Det3(m) == 0.0
  {
    var d := Det3(m);
    if d == 0.0 then None else Some(DivMat3(Adjugate3(m), d))
  }

  function UnwrapOr(o: Option<Mat3>, default: Mat3): Mat3 {
    match o
    case Some(v) => v
    case None => default
  }

  /** The matrix product a * b: row i of the result is row i of a times b. */
  function MulMat3(a: Mat3, b: Mat3): Mat3 {
    var bt := Transpose3(b);
    Mat3(MulVec3(bt, a.r0), MulVec3(bt, a.r1), MulVec3(bt, a.r2))
  }

  /** d times the identity. */
  function Diagonal3(d: real): Mat3 {
    Mat3(Vec3(d, 0.0, 0.0), Vec3(0.0, d, 0.0), Vec3(0.0, 0.0, d))
  }

  lemma IdentityMulVec3(v: Vec3)
    ensures MulVec3(Identity3(), v) == v
  {
  }

  lemma DetTranspose3(m: Mat3)
    ensures Det3(Transpose3(m)) == Det3(m)
  {
  }

  /** m times its adjugate is det(m) times the identity, row by row. */
  lemma AdjugateRight(m: Mat3)
    ensures MulMat3(m, Adjugate3(m)) == Diagonal3(Det3(m))
  {
    AdjugateRow0(m);
    AdjugateRow1(m);
    AdjugateRow2(m);
  }

  lemma AdjugateRow0(m: Mat3)
    ensures MulVec3(Transpose3(Adjugate3(m)), m.r0) == Vec3(Det3(m), 0.0, 0.0)
  {
    CrossOrthogonal(m.r2, m.r0);
    CrossOrthogonal(m.r0, m.r1);
  }

  lemma AdjugateRow1(m: Mat3)
    ensures MulVec3(Transpose3(Adjugate3(m)), m.r1) == Vec3(0.0, Det3(m), 0.0)
  {
    CrossOrthogonal(m.r1, m.r2);
    CrossOrthogonal(m.r0, m.r1);
    TripleProduct(m.r0, m.r1, m.r2);
  }

  lemma AdjugateRow2(m: Mat3)
    ensures MulVec3(Transpose3(Adjugate3(m)), m.r2) == Vec3(0.0, 0.0, Det3(m))
  {
    CrossOrthogonal(m.r1, m.r2);
    CrossOrthogonal(m.r2, m.r0);
    TripleProduct(m.r0, m.r1, m.r2);
  }

  /** u x v is orthogonal to both u and v. */
  lemma CrossOrthogonal(u: Vec3, v: Vec3)
    ensures Dot3(Cross3(u, v), u) == 0.0 && Dot3(Cross3(u, v), v) == 0.0
  {
  }

  /** The scalar triple product is invariant under cyclic rotation. */
  lemma TripleProduct(u: Vec3, v: Vec3, w: Vec3)
    ensures Dot3(Cross3(v, w), u) == Dot3(Cross3(w, u), v) == Dot3(Cross3(u, v), w)
  {
    TripleExpand(u, v, w);
    TripleExpand(v, w, u);
    TripleExpand(w, u, v);
  }

  /** The scalar triple product as a sum of six signed monomials. */
  lemma TripleExpand(u: Vec3, v: Vec3, w: Vec3)
    ensures Dot3(Cross3(v, w), u)
      == u.x * v.y * w.z - u.x * v.z * w.y + u.y * v.z * w.x
         - u.y * v.x * w.z + u.z * v.x * w.y - u.z * v.y * w.x
  {
  }

  /** Dividing every term of a three-term sum by d divides the sum by d. */
  lemma DivSum(a1: real, a2: real, a3: real, x1: real, x2: real, x3: real, d: real)
    requires d != 0.0
    ensures (x1 / d) * a1 + (x2 / d) * a2 + (x3 / d) * a3 == (x1 * a1 + x2 * a2 + x3 * a3) / d
  {
    var q1, q2, q3 := x1 / d, x2 / d, x3 / d;
    assert x1 == q1 * d && x2 == q2 * d && x3 == q3 * d;
    assert x1 * a1 + x2 * a2 + x3 * a3 == (q1 * a1 + q2 * a2 + q3 * a3) * d;
  }

  lemma DotDiv(v: Vec3, r: Vec3, d: real)
    requires d != 0.0
    ensures Dot3(DivVec3(v, d), r) == Dot3(v, r) / d
  {
    DivSum(r.x, r.y, r.z, v.x, v.y, v.z, d);
  }

  lemma MulVecDiv(m: Mat3, r: Vec3, d: real)
    requires d != 0.0
    ensures MulVec3(DivMat3(m, d), r) == DivVec3(MulVec3(m, r), d)
  {
    DotDiv(m.r0, r, d);
    DotDiv(m.r1, r, d);
    DotDiv(m.r2, r, d);
  }

  /** A row times b divided by d is the row times b, divided by d. */
  lemma RowTimesDiv(r: Vec3, b: Mat3, d: real)
    requires d != 0.0
    ensures MulVec3(Transpose3(DivMat3(b, d)), r) == DivVec3(MulVec3(Transpose3(b), r), d)
  {
    assert Transpose3(DivMat3(b, d)) == DivMat3(Transpose3(b), d);
    MulVecDiv(Transpose3(b), r, d);
  }

  /** Dividing the right factor by d divides the product by d. */
  lemma MulDivRight(a: Mat3, b: Mat3, d: real)
    requires d != 0.0
    ensures MulMat3(a, DivMat3(b, d)) == DivMat3(MulMat3(a, b), d)
  {
    RowTimesDiv(a.r0, b, d);
    RowTimesDiv(a.r1, b, d);
    RowTimesDiv(a.r2, b, d);
  }

  /** When try_inverse succeeds, its result is an inverse: m times it is
      the identity. */
  lemma TryInverse3IsInverse(m: Mat3)
    requires Det3(m) != 0.0
    ensures MulMat3(m, TryInverse3(m).value) == Identity3()
  {
    var d := Det3(m);
    AdjugateRight(m);
    MulDivRight(m, Adjugate3(m), d);
    assert d / d == 1.0 && 0.0 / d == 0.0;
    assert DivMat3(Diagonal3(d), d) == Identity3();
  }
}
