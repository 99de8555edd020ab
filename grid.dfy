/** Vectors, Mathf helpers and the one index-flattening rule shared by every
    voxel array and the chunk array: index = x + y * size.x + z * size.x * size.y
    (x varies fastest, then y, then z). */
module Grid {

  /** Unity's Vector3Int. */
  datatype Int3 = Int3(x: int, y: int, z: int)

  /** Unity's Vector3, with reals in place of floats. */
  datatype Vec3 = Vec3(x: real, y: real, z: real)

  function Sub(a: Vec3, b: Vec3): Vec3 { Vec3(a.x - b.x, a.y - b.y, a.z - b.z) }

  /** `v + Vector3Int.one`. */
  function Grow(v: Int3): Int3 { Int3(v.x + 1, v.y + 1, v.z + 1) }

  /** Every component at least one: a grid with at least one cell per axis. */
  predicate Positive(s: Int3) { s.x >= 1 && s.y >= 1 && s.z >= 1 }

  /** The length of the flat array for grid dimensions `s`. */
  function Volume(s: Int3): int { s.x * s.y * s.z }

  predicate InGrid(c: Int3, s: Int3) {
    0 <= c.x < s.x && 0 <= c.y < s.y && 0 <= c.z < s.z
  }

  /** The flattening rule as the source writes it. */
  function Flatten(c: Int3, s: Int3): int {
    c.x + c.y * s.x + c.z * s.x * s.y
  }

  /** The cell a flat index stands for: the inverse of Flatten. It is chosen by its
      defining property, so that proofs about arrays never see the division and
      remainder that compute it (Int3(n % s.x, (n / s.x) % s.y, n / (s.x * s.y)),
      by UnflattenCorrect). */
  ghost function Unflatten(n: int, s: Int3): (c: Int3)
    requires Positive(s) && 0 <= n < Volume(s)
    ensures InGrid(c, s) && Flatten(c, s) == n
  {
    UnflattenCorrect(n, s);
    var w := Int3(n % s.x, (n / s.x) % s.y, n / (s.x * s.y));
    assert InGrid(w, s) && Flatten(w, s) == n;
    var c :| InGrid(c, s) && Flatten(c, s) == n;
    c
  }

  lemma MulMonotone(a: int, b: int, d: int)
    requires a <= b && d >= 0
    ensures a * d <= b * d
  {
    assert b * d - a * d == (b - a) * d;
  }

  /** Euclidean division is determined by quotient and remainder bounds. */
  lemma DivModUnique(n: int, d: int, q: int, r: int)
    requires d > 0 && 0 <= r < d && n == q * d + r
    ensures n / d == q && n % d == r
  {
    var q' := n / d;
    var r' := n % d;
    assert n == q' * d + r' && 0 <= r' < d;
    if q' < q {
      MulMonotone(q' + 1, q, d);
      assert false;
    } else if q < q' {
      MulMonotone(q + 1, q', d);
      assert false;
    }
  }

  /** Two-level decomposition: n = q2 * (a * b) + (r2 * a + r1). */
  lemma NestedDecompose(n: int, a: int, b: int, q1: int, r1: int, q2: int, r2: int)
    requires a >= 1 && b >= 1
    requires n == q1 * a + r1 && q1 == q2 * b + r2
    requires 0 <= r1 < a && 0 <= r2 < b
    ensures n == q2 * (a * b) + (r2 * a + r1)
    ensures 0 <= r2 * a + r1 < a * b
  {
    assert q1 * a == q2 * (a * b) + r2 * a;
    MulMonotone(r2, b - 1, a);
    assert (b - 1) * a == a * b - a;
  }

  lemma UnflattenCorrect(n: int, s: Int3)
    requires Positive(s) && 0 <= n < Volume(s)
    ensures var c := Int3(n % s.x, (n / s.x) % s.y, n / (s.x * s.y));
            InGrid(c, s) && Flatten(c, s) == n
  {
    var sx, sy, sz := s.x, s.y, s.z;
    var q1, r1 := n / sx, n % sx;
    var q2, r2 := q1 / sy, q1 % sy;
    NestedDecompose(n, sx, sy, q1, r1, q2, r2);
    DivModUnique(n, sx * sy, q2, r2 * sx + r1);
    QuotientBound(n, sx * sy, sz, q2, r2 * sx + r1);
    assert q2 * sx * sy == q2 * (sx * sy);
  }

  lemma QuotientBound(n: int, d: int, m: int, q: int, r: int)
    requires d >= 1 && 0 <= n < d * m && n == q * d + r && 0 <= r < d
    ensures 0 <= q < m
  {
    if q < 0 {
      MulMonotone(q, -1, d);
      assert false;
    }
    if q >= m {
      MulMonotone(m, q, d);
      assert false;
    }
  }

  /** Every in-grid cell lands inside the flat array. */
  lemma FlattenInGrid(c: Int3, s: Int3)
    requires InGrid(c, s)
    ensures 0 <= Flatten(c, s) < Volume(s)
  {
    var sx, sy := s.x, s.y;
    MulMonotone(c.y, sy - 1, sx);
    MulMonotone(c.z, s.z - 1, sx * sy);
    assert (sy - 1) * sx == sx * sy - sx;
    assert (s.z - 1) * (sx * sy) == Volume(s) - sx * sy;
    assert c.z * sx * sy == c.z * (sx * sy);
    assert 0 <= c.y * sx && 0 <= c.z * (sx * sy);
  }

  /** The flat index regrouped by rows and by slices. */
  lemma FlattenRegroup(c: Int3, s: Int3)
    ensures Flatten(c, s) == c.x + (c.y + c.z * s.y) * s.x
    ensures Flatten(c, s) == c.z * (s.x * s.y) + (c.y * s.x + c.x)
  {
    assert (c.y + c.z * s.y) * s.x == c.y * s.x + c.z * s.y * s.x;
    assert c.z * s.y * s.x == c.z * s.x * s.y == c.z * (s.x * s.y);
  }

  /** The division and remainder that recover a cell from its flat index. */
  lemma FlattenDecompose(c: Int3, s: Int3)
    requires InGrid(c, s)
    ensures var n := Flatten(c, s);
            n % s.x == c.x && (n / s.x) % s.y == c.y && n / (s.x * s.y) == c.z
  {
    var n := Flatten(c, s);
    FlattenRegroup(c, s);
    DivModUnique(n, s.x, c.y + c.z * s.y, c.x);
    DivModUnique(n / s.x, s.y, c.z, c.y);
    NestedDecompose(n, s.x, s.y, c.y + c.z * s.y, c.x, c.z, c.y);
    DivModUnique(n, s.x * s.y, c.z, c.y * s.x + c.x);
  }

  /** Distinct in-grid cells never share a flat index. */
  lemma FlattenInjective(c: Int3, d: Int3, s: Int3)
    requires InGrid(c, s) && InGrid(d, s) && Flatten(c, s) == Flatten(d, s)
    ensures c == d
  {
    FlattenDecompose(c, s);
    FlattenDecompose(d, s);
  }

  /** Flatten followed by Unflatten gives back the cell. */
  lemma UnflattenFlatten(c: Int3, s: Int3)
    requires InGrid(c, s)
    ensures 0 <= Flatten(c, s) < Volume(s) && Unflatten(Flatten(c, s), s) == c
  {
    FlattenInGrid(c, s);
    FlattenInjective(Unflatten(Flatten(c, s), s), c, s);
  }

  /** The step from the end of a row to the start of the next one. */
  lemma FlattenNextRow(y: int, z: int, s: Int3)
    ensures Flatten(Int3(s.x, y, z), s) == Flatten(Int3(0, y + 1, z), s)
  {
    assert (y + 1) * s.x == y * s.x + s.x;
  }

  /** The step from the end of a slice to the start of the next one. */
  lemma FlattenNextSlice(z: int, s: Int3)
    ensures Flatten(Int3(0, s.y, z), s) == Flatten(Int3(0, 0, z + 1), s)
  {
    assert (z + 1) * s.x * s.y == z * s.x * s.y + s.x * s.y;
    assert s.y * s.x == s.x * s.y;
  }

  /** Past the last slice is the end of the array. */
  lemma FlattenEnd(s: Int3)
    ensures Flatten(Int3(0, 0, s.z), s) == Volume(s)
  {
    assert s.z * s.x * s.y == s.x * s.y * s.z;
  }

  /** `Mathf.Clamp(value, min, max)`. */
  function Clamp(value: real, min: real, max: real): (r: real)
    requires min <= max
    ensures min <= r <= max
    ensures min <= value <= max ==> r == value
  {
    if value < min then min else if value > max then max else value
  }

  /** `Mathf.Clamp01`. */
  function Clamp01(t: real): (r: real)
    ensures 0.0 <= r <= 1.0
  {
    Clamp(t, 0.0, 1.0)
  }

  /** `Mathf.Lerp(a, b, t)`: the interpolation parameter is clamped to [0, 1]. */
  function Lerp(a: real, b: real, t: real): real {
    a + (b - a) * Clamp01(t)
  }

  /** `Convert.ToInt32(bool)`. */
  function ToInt(b: bool): int { if b then 1 else 0 }
}
