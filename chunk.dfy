/** One chunk's density grid (Scripts/Chunk.cs): a flat array of densities laid
    out by Grid.Flatten, filled from noise and edited by ground fading and by
    box and sphere stamps. Each operation is specified by a function from the
    old contents to the new ones; the lemmas state what those functions do
    cell by cell. */
module Chunks {
  import opened Grid

  /** `Perlin.Fbm(x, y, z, octave)`: an external, deterministic noise function. */
  type Fbm3 = (real, real, real, int) -> real

  /** `Perlin.Fbm(x, y, octave)`: the two-dimensional overload. */
  type Fbm2 = (real, real, int) -> real

  /** `Vector3.magnitude`: the Euclidean length, left abstract. */
  type Magnitude = Vec3 -> real

  /** Stamped cells are set this far below the surface level. */
  const StampOffset: real := 0.01

  /** The octave count AddGround passes for the ground height, whatever its own argument. */
  const GroundOctave: int := 3

  /** The size of a chunk that has never been generated. */
  predicate IsEmpty(s: Int3) { s.x == 0 && s.y == 0 && s.z == 0 }

  /** A chunk's size: all zero before the first GenerateNoise, otherwise grown by one
      from a voxel grid of at least one voxel per axis. */
  predicate ValidSize(s: Int3) {
    IsEmpty(s) || (s.x >= 2 && s.y >= 2 && s.z >= 2)
  }

  /** Any size a chunk can have gives a non-negative array length, and a chunk that
      has a cell at all has at least two samples per axis. */
  lemma ValidSizeVolume(s: Int3)
    requires ValidSize(s)
    ensures Volume(s) >= 0
    ensures Volume(s) > 0 ==> s.x >= 2 && s.y >= 2 && s.z >= 2
  {
    if !IsEmpty(s) {
      FlattenInGrid(Int3(0, 0, 0), s);
    }
  }

  /** `(float)i / (size.x - 1)` on each axis: the cell's position normalised to [0, 1]. */
  function Normalized(c: Int3, s: Int3): Vec3
    requires s.x >= 2 && s.y >= 2 && s.z >= 2
  {
    Vec3(c.x as real / (s.x - 1) as real, c.y as real / (s.y - 1) as real, c.z as real / (s.z - 1) as real)
  }

  // ---------------------------------------------------------------- noise

  /** The noise value GenerateNoise stores at cell `c` (Chunk.cs lines 27-31). */
  function NoiseSample(c: Int3, s: Int3, chunkPos: Int3, octave: int, fbm: Fbm3): real
    requires s.x >= 2 && s.y >= 2 && s.z >= 2
  {
    var u := Normalized(c, s);
    fbm(u.x + chunkPos.x as real, u.y + chunkPos.y as real, u.z + chunkPos.z as real, octave)
  }

  /** The whole array GenerateNoise produces, one NoiseSample per flat index. */
  ghost function NoiseField(s: Int3, chunkPos: Int3, octave: int, fbm: Fbm3): (r: seq<real>)
    requires ValidSize(s)
    ensures |r| == Volume(s)
  {
    ValidSizeVolume(s);
    seq(Volume(s), n requires 0 <= n < Volume(s) => NoiseSample(Unflatten(n, s), s, chunkPos, octave, fbm))
  }

  /** Cell (i, j, k) of a generated chunk holds the noise sampled at its normalised
      position offset by the chunk's grid position. */
  lemma NoiseFieldAt(c: Int3, s: Int3, chunkPos: Int3, octave: int, fbm: Fbm3)
    requires ValidSize(s) && InGrid(c, s)
    ensures 0 <= Flatten(c, s) < Volume(s)
    ensures NoiseField(s, chunkPos, octave, fbm)[Flatten(c, s)] == NoiseSample(c, s, chunkPos, octave, fbm)
  {
    UnflattenFlatten(c, s);
  }

  /** Generation depends on the noise only at the sample points: two noise functions
      that agree there give the same array. */
  lemma NoiseFieldDependsOnSamplesOnly(s: Int3, chunkPos: Int3, octave: int, f: Fbm3, g: Fbm3)
    requires ValidSize(s)
    requires forall c :: InGrid(c, s) ==> NoiseSample(c, s, chunkPos, octave, f) == NoiseSample(c, s, chunkPos, octave, g)
    ensures NoiseField(s, chunkPos, octave, f) == NoiseField(s, chunkPos, octave, g)
  {
    var a, b := NoiseField(s, chunkPos, octave, f), NoiseField(s, chunkPos, octave, g);
    forall n | 0 <= n < |a| ensures a[n] == b[n] {
      ValidSizeVolume(s);
      var c := Unflatten(n, s);
      assert InGrid(c, s);
    }
  }

  /** Neighbouring chunks along x sample the same noise point on their shared face:
      the last column of chunk `p` and the first column of chunk `p + (1, 0, 0)`. */
  lemma NoiseFieldSharedFace(s: Int3, p: Int3, j: int, k: int, octave: int, fbm: Fbm3)
    requires s.x >= 2 && s.y >= 2 && s.z >= 2 && 0 <= j < s.y && 0 <= k < s.z
    ensures 0 <= Flatten(Int3(s.x - 1, j, k), s) < Volume(s)
    ensures 0 <= Flatten(Int3(0, j, k), s) < Volume(s)
    ensures NoiseField(s, p, octave, fbm)[Flatten(Int3(s.x - 1, j, k), s)]
         == NoiseField(s, Int3(p.x + 1, p.y, p.z), octave, fbm)[Flatten(Int3(0, j, k), s)]
  {
    NoiseFieldAt(Int3(s.x - 1, j, k), s, p, octave, fbm);
    NoiseFieldAt(Int3(0, j, k), s, Int3(p.x + 1, p.y, p.z), octave, fbm);
    DivSelf((s.x - 1) as real);
  }

  lemma DivSelf(d: real)
    requires d != 0.0
    ensures d / d == 1.0 && 0.0 / d == 0.0
  {
  }

  // ---------------------------------------------------------------- ground

  /** `j * VoxelSize.y + chunkPos.y`: the height AddGround compares with the ground. */
  function VoxelHeight(j: int, voxelSizeY: real, chunkPos: Int3): real {
    j as real * voxelSizeY + chunkPos.y as real
  }

  /** The two-dimensional noise sample that gives the ground height under column (i, k). */
  function GroundHeight(c: Int3, s: Int3, chunkPos: Int3, fbm: Fbm2): real
    requires s.x >= 2 && s.y >= 2 && s.z >= 2
  {
    var u := Normalized(c, s);
    fbm(u.x + chunkPos.x as real, u.z + chunkPos.z as real, GroundOctave)
  }

  /** `(size.y - 1) * VoxelSize.y - groundLevel`: the height range the fade is spread over. */
  function GroundSpan(s: Int3, voxelSizeY: real, groundLevel: real): real {
    (s.y - 1) as real * voxelSizeY - groundLevel
  }

  /** AddGround's update of one cell (Chunk.cs lines 51-64). */
  function GroundCell(v: real, c: Int3, s: Int3, groundLevel: real, chunkPos: Int3, voxelSizeY: real, fbm: Fbm2): (r: real)
    requires s.x >= 2 && s.y >= 2 && s.z >= 2 && GroundSpan(s, voxelSizeY, groundLevel) != 0.0
    ensures VoxelHeight(c.y, voxelSizeY, chunkPos) <= groundLevel + GroundHeight(c, s, chunkPos, fbm) ==> r == v
    ensures VoxelHeight(c.y, voxelSizeY, chunkPos) > groundLevel + GroundHeight(c, s, chunkPos, fbm) ==>
              -1.0 <= r <= 1.0
  {
    var h := VoxelHeight(c.y, voxelSizeY, chunkPos);
    if h > groundLevel + GroundHeight(c, s, chunkPos, fbm) then
      Clamp(v + 2.0 * (h - groundLevel) / GroundSpan(s, voxelSizeY, groundLevel), -1.0, 1.0)
    else
      v
  }

  /** What AddGround may assume of its arguments: the fade span is non-zero whenever
      the chunk has cells. */
  predicate GroundArgsOk(s: Int3, voxelSizeY: real, groundLevel: real) {
    !IsEmpty(s) ==> GroundSpan(s, voxelSizeY, groundLevel) != 0.0
  }

  /** The array after AddGround. */
  ghost function Grounded(v: seq<real>, s: Int3, groundLevel: real, chunkPos: Int3, voxelSizeY: real, fbm: Fbm2): (r: seq<real>)
    requires ValidSize(s) && |v| == Volume(s) && GroundArgsOk(s, voxelSizeY, groundLevel)
    ensures |r| == |v|
  {
    ValidSizeVolume(s);
    seq(|v|, n requires 0 <= n < |v| => GroundCell(v[n], Unflatten(n, s), s, groundLevel, chunkPos, voxelSizeY, fbm))
  }

  /** Cell by cell: a cell above the ground is faded by the height above the ground
      level and clamped; a cell at or below it keeps its value. */
  lemma GroundedAt(v: seq<real>, c: Int3, s: Int3, groundLevel: real, chunkPos: Int3, voxelSizeY: real, fbm: Fbm2)
    requires ValidSize(s) && |v| == Volume(s) && GroundArgsOk(s, voxelSizeY, groundLevel) && InGrid(c, s)
    ensures 0 <= Flatten(c, s) < |v|
    ensures var n, h := Flatten(c, s), VoxelHeight(c.y, voxelSizeY, chunkPos);
            Grounded(v, s, groundLevel, chunkPos, voxelSizeY, fbm)[n]
              == if h > groundLevel + GroundHeight(c, s, chunkPos, fbm)
                 then Clamp(v[n] + 2.0 * (h - groundLevel) / GroundSpan(s, voxelSizeY, groundLevel), -1.0, 1.0)
                 else v[n]
  {
    UnflattenFlatten(c, s);
  }

  /** Every cell AddGround changes ends in [-1, 1], and if all cells started in
      [-1, 1] they all end there. */
  lemma GroundedKeepsUnitRange(v: seq<real>, s: Int3, groundLevel: real, chunkPos: Int3, voxelSizeY: real, fbm: Fbm2)
    requires ValidSize(s) && |v| == Volume(s) && GroundArgsOk(s, voxelSizeY, groundLevel)
    ensures var r := Grounded(v, s, groundLevel, chunkPos, voxelSizeY, fbm);
            forall n :: 0 <= n < |v| && r[n] != v[n] ==> -1.0 <= r[n] <= 1.0
    ensures (forall n :: 0 <= n < |v| ==> -1.0 <= v[n] <= 1.0) ==>
            var r := Grounded(v, s, groundLevel, chunkPos, voxelSizeY, fbm);
            forall n :: 0 <= n < |r| ==> -1.0 <= r[n] <= 1.0
  {
    var r := Grounded(v, s, groundLevel, chunkPos, voxelSizeY, fbm);
    forall n | 0 <= n < |v| ensures r[n] != v[n] ==> -1.0 <= r[n] <= 1.0 {
      ValidSizeVolume(s);
      var c := Unflatten(n, s);
      assert r[n] == GroundCell(v[n], c, s, groundLevel, chunkPos, voxelSizeY, fbm);
    }
  }

  // ---------------------------------------------------------------- stamps

  /** `(float)i / (size.x - 1) * chunkSize.x` on each axis: the cell's chunk-local
      position as the stamps compute it. */
  function StampPos(c: Int3, s: Int3, chunkSize: Vec3): Vec3
    requires s.x >= 2 && s.y >= 2 && s.z >= 2
  {
    var u := Normalized(c, s);
    Vec3(u.x * chunkSize.x, u.y * chunkSize.y, u.z * chunkSize.z)
  }

  /** `new Bounds(center, size).Contains(p)`: the closed box of half-extents size / 2
      around center. */
  predicate BoxContains(center: Vec3, boxSize: Vec3, p: Vec3) {
    var ex, ey, ez := boxSize.x / 2.0, boxSize.y / 2.0, boxSize.z / 2.0;
    && center.x - ex <= p.x <= center.x + ex
    && center.y - ey <= p.y <= center.y + ey
    && center.z - ez <= p.z <= center.z + ez
  }

  /** The array after AddBox. */
  ghost function BoxStamped(v: seq<real>, s: Int3, center: Vec3, boxSize: Vec3, chunkSize: Vec3, surface: real): (r: seq<real>)
    requires ValidSize(s) && |v| == Volume(s)
    ensures |r| == |v|
  {
    ValidSizeVolume(s);
    seq(|v|, n requires 0 <= n < |v| =>
      if BoxContains(center, boxSize, StampPos(Unflatten(n, s), s, chunkSize)) then surface - StampOffset else v[n])
  }

  /** Exactly the cells whose position lies in the box become `surface - 0.01`;
      every other cell keeps its value. */
  lemma BoxStampedAt(v: seq<real>, c: Int3, s: Int3, center: Vec3, boxSize: Vec3, chunkSize: Vec3, surface: real)
    requires ValidSize(s) && |v| == Volume(s) && InGrid(c, s)
    ensures 0 <= Flatten(c, s) < |v|
    ensures BoxStamped(v, s, center, boxSize, chunkSize, surface)[Flatten(c, s)]
              == if BoxContains(center, boxSize, StampPos(c, s, chunkSize)) then surface - 0.01 else v[Flatten(c, s)]
  {
    UnflattenFlatten(c, s);
  }

  /** Stamping the same box twice is stamping it once. */
  lemma BoxStampIdempotent(v: seq<real>, s: Int3, center: Vec3, boxSize: Vec3, chunkSize: Vec3, surface: real)
    requires ValidSize(s) && |v| == Volume(s)
    ensures var once := BoxStamped(v, s, center, boxSize, chunkSize, surface);
            BoxStamped(once, s, center, boxSize, chunkSize, surface) == once
  {
    var once := BoxStamped(v, s, center, boxSize, chunkSize, surface);
    var twice := BoxStamped(once, s, center, boxSize, chunkSize, surface);
    assert |twice| == |once|;
    forall n | 0 <= n < |once| ensures twice[n] == once[n] {
      ValidSizeVolume(s);
    }
  }

  /** The array after AddSphere. */
  ghost function SphereStamped(v: seq<real>, s: Int3, center: Vec3, radius: real, chunkSize: Vec3, surface: real, magnitude: Magnitude): (r: seq<real>)
    requires ValidSize(s) && |v| == Volume(s)
    ensures |r| == |v|
  {
    ValidSizeVolume(s);
    seq(|v|, n requires 0 <= n < |v| =>
      if magnitude(Sub(center, StampPos(Unflatten(n, s), s, chunkSize))) <= radius then surface - StampOffset else v[n])
  }

  /** Exactly the cells within `radius` of the centre become `surface - 0.01`;
      every other cell keeps its value. */
  lemma SphereStampedAt(v: seq<real>, c: Int3, s: Int3, center: Vec3, radius: real, chunkSize: Vec3, surface: real, magnitude: Magnitude)
    requires ValidSize(s) && |v| == Volume(s) && InGrid(c, s)
    ensures 0 <= Flatten(c, s) < |v|
    ensures SphereStamped(v, s, center, radius, chunkSize, surface, magnitude)[Flatten(c, s)]
              == if magnitude(Sub(center, StampPos(c, s, chunkSize))) <= radius then surface - 0.01 else v[Flatten(c, s)]
  {
    UnflattenFlatten(c, s);
  }

  /** Stamping the same sphere twice is stamping it once. */
  lemma SphereStampIdempotent(v: seq<real>, s: Int3, center: Vec3, radius: real, chunkSize: Vec3, surface: real, magnitude: Magnitude)
    requires ValidSize(s) && |v| == Volume(s)
    ensures var once := SphereStamped(v, s, center, radius, chunkSize, surface, magnitude);
            SphereStamped(once, s, center, radius, chunkSize, surface, magnitude) == once
  {
    var once := SphereStamped(v, s, center, radius, chunkSize, surface, magnitude);
    var twice := SphereStamped(once, s, center, radius, chunkSize, surface, magnitude);
    assert |twice| == |once|;
    forall n | 0 <= n < |once| ensures twice[n] == once[n] {
      ValidSizeVolume(s);
    }
  }

  /** The stamped value lies in [-1, 1] exactly when the surface level lies in
      [-0.99, 1.01]; a surface of -1, which the demo's range allows, stamps -1.01. */
  lemma StampValueInUnitRange(surface: real)
    ensures -1.0 <= surface - StampOffset <= 1.0 <==> -0.99 <= surface <= 1.01
  {
  }

  /** AddBox changes a cell only to the stamped value, so an array in [-1, 1] stays
      there exactly for the surface levels StampValueInUnitRange admits. */
  lemma BoxStampedKeepsUnitRange(v: seq<real>, s: Int3, center: Vec3, boxSize: Vec3, chunkSize: Vec3, surface: real)
    requires ValidSize(s) && |v| == Volume(s)
    ensures var r := BoxStamped(v, s, center, boxSize, chunkSize, surface);
            forall n :: 0 <= n < |v| && r[n] != v[n] ==> r[n] == surface - StampOffset
    ensures (forall n :: 0 <= n < |v| ==> -1.0 <= v[n] <= 1.0) && -0.99 <= surface <= 1.01 ==>
            var r := BoxStamped(v, s, center, boxSize, chunkSize, surface);
            forall n :: 0 <= n < |r| ==> -1.0 <= r[n] <= 1.0
  {
    var r := BoxStamped(v, s, center, boxSize, chunkSize, surface);
    StampValueInUnitRange(surface);
    forall n | 0 <= n < |v| ensures r[n] == v[n] || r[n] == surface - StampOffset {
      ValidSizeVolume(s);
    }
  }

  /** AddSphere changes a cell only to the stamped value, so an array in [-1, 1]
      stays there exactly for the surface levels StampValueInUnitRange admits. */
  lemma SphereStampedKeepsUnitRange(v: seq<real>, s: Int3, center: Vec3, radius: real, chunkSize: Vec3, surface: real,
                                    magnitude: Magnitude)
    requires ValidSize(s) && |v| == Volume(s)
    ensures var r := SphereStamped(v, s, center, radius, chunkSize, surface, magnitude);
            forall n :: 0 <= n < |v| && r[n] != v[n] ==> r[n] == surface - StampOffset
    ensures (forall n :: 0 <= n < |v| ==> -1.0 <= v[n] <= 1.0) && -0.99 <= surface <= 1.01 ==>
            var r := SphereStamped(v, s, center, radius, chunkSize, surface, magnitude);
            forall n :: 0 <= n < |r| ==> -1.0 <= r[n] <= 1.0
  {
    var r := SphereStamped(v, s, center, radius, chunkSize, surface, magnitude);
    StampValueInUnitRange(surface);
    forall n | 0 <= n < |v| ensures r[n] == v[n] || r[n] == surface - StampOffset {
      ValidSizeVolume(s);
    }
  }

  // ---------------------------------------------------------------- the chunk object

  /** The arguments of one `CubeMarching.March` call: the remesh request a chunk issues. */
  datatype MeshRequest = MeshRequest(voxels: seq<real>, size: Int3, voxelSize: Vec3, surface: real)

  /** The `Chunk` component: its density array, its size, its world position
      (`transform.position`) and the remesh requests it has issued. */
  class Chunk {
    var voxels: array<real>
    var size: Int3
    var position: Vec3
    var meshRequests: seq<MeshRequest>

    ghost predicate Valid()
      reads this
    {
      ValidSize(size) && voxels.Length == Volume(size)
    }

    /** A chunk component as `AddComponent<Chunk>()` leaves it: size zero, no cells. */
    constructor (position: Vec3)
      ensures Valid() && fresh(voxels)
      ensures size == Int3(0, 0, 0) && voxels.Length == 0
      ensures this.position == position && meshRequests == []
    {
      voxels := new real[0];
      size := Int3(0, 0, 0);
      this.position := position;
      meshRequests := [];
    }

    /** Allocates the array for `voxelGrid` and fills every cell with noise. */
    method GenerateNoise(voxelGrid: Int3, chunkPos: Int3, freq: real, octave: int, fbm: Fbm3)
      requires Positive(voxelGrid)
      modifies this`voxels, this`size
      ensures Valid() && fresh(voxels)
      ensures size == Grow(voxelGrid) && voxels.Length == size.x * size.y * size.z
      ensures voxels[..] == NoiseField(size, chunkPos, octave, fbm)
    {
      size := Grow(voxelGrid);
      voxels := new real[size.x * size.y * size.z];
      ghost var spec := NoiseField(size, chunkPos, octave, fbm);
      ghost var n := 0;
      FlattenInGrid(Int3(0, 0, 0), size);
      var k := 0;
      while k < size.z
        invariant 0 <= k <= size.z
        invariant n == Flatten(Int3(0, 0, k), size) && n <= voxels.Length
        invariant forall m :: 0 <= m < n ==> voxels[m] == spec[m]
        modifies voxels
      {
        var j := 0;
        while j < size.y
          invariant 0 <= j <= size.y
          invariant n == Flatten(Int3(0, j, k), size) && n <= voxels.Length
          invariant forall m :: 0 <= m < n ==> voxels[m] == spec[m]
          modifies voxels
        {
          var i := 0;
          while i < size.x
            invariant 0 <= i <= size.x
            invariant n == Flatten(Int3(i, j, k), size) && n <= voxels.Length
            invariant forall m :: 0 <= m < n ==> voxels[m] == spec[m]
            modifies voxels
          {
            var index := i + j * size.x + k * size.x * size.y;
            UnflattenFlatten(Int3(i, j, k), size);
            voxels[index] := NoiseSample(Int3(i, j, k), size, chunkPos, octave, fbm);
            n := n + 1;
            i := i + 1;
          }
          FlattenNextRow(j, k, size);
          j := j + 1;
        }
        FlattenNextSlice(k, size);
        k := k + 1;
      }
      FlattenEnd(size);
      assert voxels[..] == spec;
    }

    /** Fades the cells above a noisy ground surface towards empty. */
    method AddGround(groundLevel: real, chunkPos: Int3, freq: real, octave: int, voxelSizeY: real, fbm: Fbm2)
      requires Valid() && GroundSpan(size, voxelSizeY, groundLevel) != 0.0
      modifies voxels
      ensures Valid() && size == old(size)
      ensures voxels[..] == Grounded(old(voxels[..]), size, groundLevel, chunkPos, voxelSizeY, fbm)
    {
      ghost var spec := Grounded(voxels[..], size, groundLevel, chunkPos, voxelSizeY, fbm);
      ghost var n := 0;
      ValidSizeVolume(size);
      var k := 0;
      while k < size.z
        invariant 0 <= k <= size.z
        invariant n == Flatten(Int3(0, 0, k), size) && 0 <= n <= voxels.Length
        invariant forall m :: 0 <= m < n ==> voxels[m] == spec[m]
        invariant forall m :: n <= m < voxels.Length ==> voxels[m] == old(voxels[m])
      {
        var j := 0;
        while j < size.y
          invariant 0 <= j <= size.y
          invariant n == Flatten(Int3(0, j, k), size) && 0 <= n <= voxels.Length
          invariant forall m :: 0 <= m < n ==> voxels[m] == spec[m]
          invariant forall m :: n <= m < voxels.Length ==> voxels[m] == old(voxels[m])
        {
          var i := 0;
          while i < size.x
            invariant 0 <= i <= size.x
            invariant n == Flatten(Int3(i, j, k), size) && 0 <= n <= voxels.Length
            invariant forall m :: 0 <= m < n ==> voxels[m] == spec[m]
            invariant forall m :: n <= m < voxels.Length ==> voxels[m] == old(voxels[m])
          {
            var index := i + j * size.x + k * size.x * size.y;
            UnflattenFlatten(Int3(i, j, k), size);
            var voxelHeight := VoxelHeight(j, voxelSizeY, chunkPos);
            var groundHeight := GroundHeight(Int3(i, j, k), size, chunkPos, fbm);
            if voxelHeight > groundLevel + groundHeight {
              voxels[index] := Clamp(
                voxels[index] + 2.0 * (voxelHeight - groundLevel) / GroundSpan(size, voxelSizeY, groundLevel),
                -1.0,
                1.0);
            }
            n := n + 1;
            i := i + 1;
          }
          FlattenNextRow(j, k, size);
          j := j + 1;
        }
        FlattenNextSlice(k, size);
        k := k + 1;
      }
      FlattenEnd(size);
      assert voxels[..] == spec;
    }

    /** Sets every cell whose position lies in the box to just below the surface. */
    method AddBox(center: Vec3, boxSize: Vec3, chunkSize: Vec3, surface: real)
      requires Valid()
      modifies voxels
      ensures Valid() && size == old(size)
      ensures voxels[..] == BoxStamped(old(voxels[..]), size, center, boxSize, chunkSize, surface)
    {
      ghost var spec := BoxStamped(voxels[..], size, center, boxSize, chunkSize, surface);
      ghost var n := 0;
      ValidSizeVolume(size);
      var k := 0;
      while k < size.z
        invariant 0 <= k <= size.z
        invariant n == Flatten(Int3(0, 0, k), size) && 0 <= n <= voxels.Length
        invariant forall m :: 0 <= m < n ==> voxels[m] == spec[m]
        invariant forall m :: n <= m < voxels.Length ==> voxels[m] == old(voxels[m])
      {
        var j := 0;
        while j < size.y
          invariant 0 <= j <= size.y
          invariant n == Flatten(Int3(0, j, k), size) && 0 <= n <= voxels.Length
          invariant forall m :: 0 <= m < n ==> voxels[m] == spec[m]
          invariant forall m :: n <= m < voxels.Length ==> voxels[m] == old(voxels[m])
        {
          var i := 0;
          while i < size.x
            invariant 0 <= i <= size.x
            invariant n == Flatten(Int3(i, j, k), size) && 0 <= n <= voxels.Length
            invariant forall m :: 0 <= m < n ==> voxels[m] == spec[m]
            invariant forall m :: n <= m < voxels.Length ==> voxels[m] == old(voxels[m])
          {
            UnflattenFlatten(Int3(i, j, k), size);
            var voxelPos := StampPos(Int3(i, j, k), size, chunkSize);
            if BoxContains(center, boxSize, voxelPos) {
              var index := i + j * size.x + k * size.x * size.y;
              voxels[index] := surface - StampOffset;
            }
            n := n + 1;
            i := i + 1;
          }
          FlattenNextRow(j, k, size);
          j := j + 1;
        }
        FlattenNextSlice(k, size);
        k := k + 1;
      }
      FlattenEnd(size);
      assert voxels[..] == spec;
    }

    /** Sets every cell within `radius` of `center` to just below the surface. */
    method AddSphere(center: Vec3, radius: real, chunkSize: Vec3, surface: real, magnitude: Magnitude)
      requires Valid()
      modifies voxels
      ensures Valid() && size == old(size)
      ensures voxels[..] == SphereStamped(old(voxels[..]), size, center, radius, chunkSize, surface, magnitude)
    {
      ghost var spec := SphereStamped(voxels[..], size, center, radius, chunkSize, surface, magnitude);
      ghost var n := 0;
      ValidSizeVolume(size);
      var k := 0;
      while k < size.z
        invariant 0 <= k <= size.z
        invariant n == Flatten(Int3(0, 0, k), size) && 0 <= n <= voxels.Length
        invariant forall m :: 0 <= m < n ==> voxels[m] == spec[m]
        invariant forall m :: n <= m < voxels.Length ==> voxels[m] == old(voxels[m])
      {
        var j := 0;
        while j < size.y
          invariant 0 <= j <= size.y
          invariant n == Flatten(Int3(0, j, k), size) && 0 <= n <= voxels.Length
          invariant forall m :: 0 <= m < n ==> voxels[m] == spec[m]
          invariant forall m :: n <= m < voxels.Length ==> voxels[m] == old(voxels[m])
        {
          var i := 0;
          while i < size.x
            invariant 0 <= i <= size.x
            invariant n == Flatten(Int3(i, j, k), size) && 0 <= n <= voxels.Length
            invariant forall m :: 0 <= m < n ==> voxels[m] == spec[m]
            invariant forall m :: n <= m < voxels.Length ==> voxels[m] == old(voxels[m])
          {
            UnflattenFlatten(Int3(i, j, k), size);
            var voxelPos := StampPos(Int3(i, j, k), size, chunkSize);
            var dist := magnitude(Sub(center, voxelPos));
            if dist <= radius {
              var index := i + j * size.x + k * size.x * size.y;
              voxels[index] := surface - StampOffset;
            }
            n := n + 1;
            i := i + 1;
          }
          FlattenNextRow(j, k, size);
          j := j + 1;
        }
        FlattenNextSlice(k, size);
        k := k + 1;
      }
      FlattenEnd(size);
      assert voxels[..] == spec;
    }

    /** Requests a remesh from the current densities (the mesh building itself is external). */
    method CubeMarch(voxelSize: Vec3, surface: real)
      modifies this`meshRequests
      ensures meshRequests == old(meshRequests) + [MeshRequest(voxels[..], size, voxelSize, surface)]
    {
      meshRequests := meshRequests + [MeshRequest(voxels[..], size, voxelSize, surface)];
    }
  }
}
