/** The value types a shader uniform can be set from, and the flat float
    sequence each one is packed into (the `toFloatArray` extensions of
    framework/Source/ShaderUniformSettings.swift). Element values are only
    ever copied, so a 32-bit float is kept as its bit pattern. */
module UniformValues {

  datatype Option<+T> = None | Some(value: T)

  /** A 32-bit IEEE-754 float, kept as its bit pattern; nothing here does
      arithmetic on it. */
  datatype Float32 = Float32(bits: bv32)

  /** The bit pattern of +0.0, used for blank storage and padding. */
  const Zero: Float32 := Float32(0)

  datatype Color = Color(red: Float32, green: Float32, blue: Float32, alpha: Float32)

  /** A 2D position, or a 3D one when `z` is present. */
  datatype Position = Position(x: Float32, y: Float32, z: Option<Float32>)

  datatype Size = Size(width: Float32, height: Float32)

  datatype Matrix3x3 = Matrix3x3(
    m11: Float32, m12: Float32, m13: Float32,
    m21: Float32, m22: Float32, m23: Float32,
    m31: Float32, m32: Float32, m33: Float32)
  {
    /** The entry in row `row`, column `col` (both counted from 0). */
    function Entry(row: nat, col: nat): Float32
      requires row < 3 && col < 3
    {
      [[m11, m12, m13], [m21, m22, m23], [m31, m32, m33]][row][col]
    }
  }

  datatype Matrix4x4 = Matrix4x4(
    m11: Float32, m12: Float32, m13: Float32, m14: Float32,
    m21: Float32, m22: Float32, m23: Float32, m24: Float32,
    m31: Float32, m32: Float32, m33: Float32, m34: Float32,
    m41: Float32, m42: Float32, m43: Float32, m44: Float32)
  {
    /** The entry in row `row`, column `col` (both counted from 0). */
    function Entry(row: nat, col: nat): Float32
      requires row < 4 && col < 4
    {
      [[m11, m12, m13, m14], [m21, m22, m23, m24],
       [m31, m32, m33, m34], [m41, m42, m43, m44]][row][col]
    }
  }

  /** Color without alpha: red, green, blue and a zero in the fourth place.
      It agrees with the alpha form on the colour channels and differs from it
      only in the fourth element. */
  function ColorToFloatArray(c: Color): (a: seq<Float32>)
    ensures |a| == |ColorToFloatArrayWithAlpha(c)| == 4
    ensures a[..3] == ColorToFloatArrayWithAlpha(c)[..3]
    ensures a[3] == Zero
  {
    [c.red, c.green, c.blue, Zero]
  }

  /** Color with alpha: red, green, blue, alpha. */
  function ColorToFloatArrayWithAlpha(c: Color): (a: seq<Float32>)
    ensures |a| == 4 && a[..3] == [c.red, c.green, c.blue] && a[3] == c.alpha
  {
    [c.red, c.green, c.blue, c.alpha]
  }

  /** [x, y] for a 2D position; [x, y, z, 0] for a 3D one. */
  function PositionToFloatArray(p: Position): (a: seq<Float32>)
    ensures |a| == if p.z.Some? then 4 else 2
    ensures a[..2] == [p.x, p.y]
    ensures p.z.Some? ==> a[2..] == [p.z.value, Zero]
  {
    match p.z
    case Some(z) => [p.x, p.y, z, Zero]
    case None => [p.x, p.y]
  }

  /** [width, height]. */
  function SizeToFloatArray(s: Size): (a: seq<Float32>)
    ensures |a| == 2 && a[0] == s.width && a[1] == s.height
  {
    [s.width, s.height]
  }

  /** Row-major with one zero after each three-entry row: row `r` occupies
      elements 4r .. 4r+2 and element 4r+3 is padding. */
  function Matrix3x3ToFloatArray(m: Matrix3x3): (a: seq<Float32>)
    ensures |a| == 12
    ensures forall r, c :: 0 <= r < 3 && 0 <= c < 3 ==> a[4 * r + c] == m.Entry(r, c)
    ensures a[3] == a[7] == a[11] == Zero
  {
    [m.m11, m.m12, m.m13, Zero,
     m.m21, m.m22, m.m23, Zero,
     m.m31, m.m32, m.m33, Zero]
  }

  /** Row-major without padding: entry (r, c) is element 4r + c. */
  function Matrix4x4ToFloatArray(m: Matrix4x4): (a: seq<Float32>)
    ensures |a| == 16
    ensures forall r, c :: 0 <= r < 4 && 0 <= c < 4 ==> a[4 * r + c] == m.Entry(r, c)
  {
    [m.m11, m.m12, m.m13, m.m14,
     m.m21, m.m22, m.m23, m.m24,
     m.m31, m.m32, m.m33, m.m34,
     m.m41, m.m42, m.m43, m.m44]
  }

  /** No two different values pack to the same floats: the packing loses no
      information (with alpha for colours; without it the alpha is dropped). */
  lemma PackingIsInjective()
    ensures forall c1, c2 :: ColorToFloatArrayWithAlpha(c1) == ColorToFloatArrayWithAlpha(c2) ==> c1 == c2
    ensures forall p1, p2 :: PositionToFloatArray(p1) == PositionToFloatArray(p2) ==> p1 == p2
    ensures forall s1, s2 :: SizeToFloatArray(s1) == SizeToFloatArray(s2) ==> s1 == s2
    ensures forall m1, m2 :: Matrix3x3ToFloatArray(m1) == Matrix3x3ToFloatArray(m2) ==> m1 == m2
    ensures forall m1, m2 :: Matrix4x4ToFloatArray(m1) == Matrix4x4ToFloatArray(m2) ==> m1 == m2
  {
    forall c1, c2 | ColorToFloatArrayWithAlpha(c1) == ColorToFloatArrayWithAlpha(c2)
      ensures c1 == c2
    {
      var a1, a2 := ColorToFloatArrayWithAlpha(c1), ColorToFloatArrayWithAlpha(c2);
      assert a1[0] == a2[0] && a1[1] == a2[1] && a1[2] == a2[2] && a1[3] == a2[3];
    }
    forall p1, p2 | PositionToFloatArray(p1) == PositionToFloatArray(p2)
      ensures p1 == p2
    {
      var a1, a2 := PositionToFloatArray(p1), PositionToFloatArray(p2);
      assert a1[0] == a2[0] && a1[1] == a2[1];
      if p1.z.Some? {
        assert a1[2] == a2[2];
      }
    }
    forall s1, s2 | SizeToFloatArray(s1) == SizeToFloatArray(s2)
      ensures s1 == s2
    {
      var a1, a2 := SizeToFloatArray(s1), SizeToFloatArray(s2);
      assert a1[0] == a2[0] && a1[1] == a2[1];
    }
    forall m1, m2 | Matrix3x3ToFloatArray(m1) == Matrix3x3ToFloatArray(m2)
      ensures m1 == m2
    {
      var a1, a2 := Matrix3x3ToFloatArray(m1), Matrix3x3ToFloatArray(m2);
      assert forall i :: 0 <= i < 12 ==> a1[i] == a2[i];
    }
    forall m1, m2 | Matrix4x4ToFloatArray(m1) == Matrix4x4ToFloatArray(m2)
      ensures m1 == m2
    {
      var a1, a2 := Matrix4x4ToFloatArray(m1), Matrix4x4ToFloatArray(m2);
      assert forall i :: 0 <= i < 16 ==> a1[i] == a2[i];
    }
  }
}
