/** The static `LevelGeneration` class: the level's seed and surface level, the
    derived chunk and voxel sizes, and the flat array of chunks laid out over a
    chunk grid with the same flattening rule the chunks use for their cells. */
module LevelGeneration {
  import opened Grid
  import opened Chunks

  /** `Vector2Int`, the chunk grid GenerateXZ takes. */
  datatype Int2 = Int2(x: int, y: int)

  /** The noise generator after `Perlin.GeneratePerm(seed)`: one fractal noise
      function per seed. */
  type SeededNoise = int -> Fbm3

  /** The octave count every chunk is generated with. */
  const ChunkOctave: int := 3

  /** `total / grid` componentwise: the extent of one of `grid` equal parts of
      `total`. It gives the chunk size from the level size and the chunk grid, and
      the voxel size from the chunk size and the voxel grid. */
  function PartSize(total: Vec3, grid: Int3): (r: Vec3)
    requires Positive(grid)
    ensures r.x * grid.x as real == total.x
    ensures r.y * grid.y as real == total.y
    ensures r.z * grid.z as real == total.z
  {
    Vec3(total.x / grid.x as real, total.y / grid.y as real, total.z / grid.z as real)
  }

  /** `new Vector3(i * chunkSize.x, j * chunkSize.y, k * chunkSize.z)`: where chunk
      (i, j, k) is placed. The level object sits at the origin, so this local
      position is also the chunk's world position. */
  function ChunkOrigin(cell: Int3, chunkSize: Vec3): Vec3 {
    Vec3(cell.x as real * chunkSize.x, cell.y as real * chunkSize.y, cell.z as real * chunkSize.z)
  }

  /** What GenerateXYZ leaves in chunk (i, j, k): placed at its origin, generated
      from noise with chunkPos (i, j, k) and octave 3, and remeshed exactly once
      with the level's voxel size and surface. */
  ghost predicate ChunkBuilt(c: Chunk, cell: Int3, voxelGrid: Int3, chunkSize: Vec3, voxelSize: Vec3,
                            surface: real, noise: Fbm3)
    reads c, c.voxels
  {
    && c.Valid()
    && c.position == ChunkOrigin(cell, chunkSize)
    && c.size == Grow(voxelGrid)
    && c.voxels[..] == NoiseField(c.size, cell, ChunkOctave, noise)
    && c.meshRequests == [MeshRequest(c.voxels[..], c.size, voxelSize, surface)]
  }

  /** The body of GenerateXYZ's loop for chunk (i, j, k): a new chunk component at
      the chunk's origin, filled with noise and remeshed. */
  method BuildChunk(cell: Int3, voxelGrid: Int3, chunkSize: Vec3, voxelSize: Vec3, surface: real, noise: Fbm3)
    returns (chunk: Chunk)
    requires Positive(voxelGrid)
    ensures fresh(chunk) && fresh(chunk.voxels)
    ensures ChunkBuilt(chunk, cell, voxelGrid, chunkSize, voxelSize, surface, noise)
  {
    chunk := new Chunk(ChunkOrigin(cell, chunkSize));
    chunk.GenerateNoise(voxelGrid, cell, 1.0, ChunkOctave, noise);
    chunk.CubeMarch(voxelSize, surface);
  }

  /** GenerateXYZ's innermost loop: builds row (j, k) of the chunk grid, x fastest,
      storing chunk (i, j, k) at its flat index `b + i` and touching no other entry. */
  method GenerateRow(cells: array<Chunk?>, j: int, k: int, chunkGrid: Int3, voxelGrid: Int3, chunkSize: Vec3,
                     voxelSize: Vec3, surface: real, noise: Fbm3, ghost b: int)
    requires Positive(voxelGrid) && chunkGrid.x >= 1
    requires b == j * chunkGrid.x + k * chunkGrid.x * chunkGrid.y && 0 <= b && b + chunkGrid.x <= cells.Length
    modifies cells
    ensures forall m :: 0 <= m < cells.Length && !(b <= m < b + chunkGrid.x) ==> cells[m] == old(cells[m])
    ensures forall m :: b <= m < b + chunkGrid.x ==>
              cells[m] != null &&
              ChunkBuilt(cells[m], Int3(m - b, j, k), voxelGrid, chunkSize, voxelSize, surface, noise)
    ensures forall m :: b <= m < b + chunkGrid.x ==> cells[m] != null && fresh(cells[m].voxels)
    ensures forall x, y :: b <= x < y < b + chunkGrid.x ==>
              cells[x] != null && cells[y] != null && cells[x].voxels != cells[y].voxels
  {
    var i := 0;
    while i < chunkGrid.x
      invariant 0 <= i <= chunkGrid.x
      invariant forall m :: 0 <= m < cells.Length && !(b <= m < b + i) ==> cells[m] == old(cells[m])
      invariant forall m :: b <= m < b + i ==>
                  cells[m] != null &&
                  ChunkBuilt(cells[m], Int3(m - b, j, k), voxelGrid, chunkSize, voxelSize, surface, noise)
      invariant forall m :: b <= m < b + i ==> cells[m] != null && fresh(cells[m].voxels)
      invariant forall x, y :: b <= x < y < b + i ==>
                  cells[x] != null && cells[y] != null && cells[x].voxels != cells[y].voxels
    {
      var index := i + j * chunkGrid.x + k * chunkGrid.x * chunkGrid.y;
      label BeforeChunk:
      var chunk := BuildChunk(Int3(i, j, k), voxelGrid, chunkSize, voxelSize, surface, noise);
      forall x | b <= x < b + i ensures cells[x] != null && cells[x].voxels != chunk.voxels {
        assert old@BeforeChunk(allocated(cells[x].voxels));
      }
      cells[index] := chunk;
      i := i + 1;
    }
  }

  /** Row j + 1 of slice k starts where row j ends and stays within the slice. */
  lemma RowMonotone(j: int, k: int, s: Int3)
    requires Positive(s) && 0 <= j < s.y && 0 <= k
    ensures Flatten(Int3(0, j + 1, k), s) <= Flatten(Int3(0, 0, k + 1), s)
  {
    MulMonotone(j + 1, s.y, s.x);
    FlattenNextSlice(k, s);
  }

  /** GenerateXYZ's middle loop: builds slice k of the chunk grid row by row,
      touching no entry outside it. */
  method GenerateSlice(cells: array<Chunk?>, k: int, chunkGrid: Int3, voxelGrid: Int3, chunkSize: Vec3,
                       voxelSize: Vec3, surface: real, noise: Fbm3)
    requires Positive(chunkGrid) && Positive(voxelGrid) && cells.Length == Volume(chunkGrid)
    requires 0 <= k < chunkGrid.z
    modifies cells
    ensures var b := Flatten(Int3(0, 0, k), chunkGrid);
            var e := Flatten(Int3(0, 0, k + 1), chunkGrid);
            && 0 <= b <= e <= cells.Length
            && (forall m :: 0 <= m < cells.Length && !(b <= m < e) ==> cells[m] == old(cells[m]))
            && (forall m :: b <= m < e ==>
                  cells[m] != null &&
                  ChunkBuilt(cells[m], Unflatten(m, chunkGrid), voxelGrid, chunkSize, voxelSize, surface, noise))
            && (forall m :: b <= m < e ==> cells[m] != null && fresh(cells[m].voxels))
            && (forall x, y :: b <= x < y < e ==>
                  cells[x] != null && cells[y] != null && cells[x].voxels != cells[y].voxels)
  {
    ghost var b := Flatten(Int3(0, 0, k), chunkGrid);
    ghost var e := Flatten(Int3(0, 0, k + 1), chunkGrid);
    FlattenInGrid(Int3(0, 0, k), chunkGrid);
    FlattenInGrid(Int3(chunkGrid.x - 1, chunkGrid.y - 1, k), chunkGrid);
    FlattenNextRow(chunkGrid.y - 1, k, chunkGrid);
    FlattenNextSlice(k, chunkGrid);
    ghost var n := b;
    var j := 0;
    while j < chunkGrid.y
      invariant 0 <= j <= chunkGrid.y && n == Flatten(Int3(0, j, k), chunkGrid)
      invariant b <= n <= e
      invariant forall m :: 0 <= m < cells.Length && !(b <= m < n) ==> cells[m] == old(cells[m])
      invariant forall m :: b <= m < n ==>
                  cells[m] != null &&
                  ChunkBuilt(cells[m], Unflatten(m, chunkGrid), voxelGrid, chunkSize, voxelSize, surface, noise)
      invariant forall m :: b <= m < n ==> cells[m] != null && fresh(cells[m].voxels)
      invariant forall x, y :: b <= x < y < n ==>
                  cells[x] != null && cells[y] != null && cells[x].voxels != cells[y].voxels
    {
      FlattenInGrid(Int3(chunkGrid.x - 1, j, k), chunkGrid);
      FlattenNextRow(j, k, chunkGrid);
      RowMonotone(j, k, chunkGrid);
      label BeforeRow:
      GenerateRow(cells, j, k, chunkGrid, voxelGrid, chunkSize, voxelSize, surface, noise, n);
      forall x, y | b <= x < n <= y < n + chunkGrid.x
        ensures cells[x] != null && cells[y] != null && cells[x].voxels != cells[y].voxels
      {
        assert old@BeforeRow(allocated(cells[x].voxels));
      }
      forall m | n <= m < n + chunkGrid.x
        ensures cells[m] != null &&
                ChunkBuilt(cells[m], Unflatten(m, chunkGrid), voxelGrid, chunkSize, voxelSize, surface, noise)
      {
        UnflattenFlatten(Int3(m - n, j, k), chunkGrid);
      }
      n := n + chunkGrid.x;
      j := j + 1;
    }
  }

  class Level {
    var seed: int
    var surface: real
    var chunks: array<Chunk?>
    var chunkSize: Vec3
    var voxelSize: Vec3

    /** The static fields before any generation: defaults and no chunks. */
    constructor ()
      ensures seed == 0 && surface == 0.0 && chunks.Length == 0
      ensures chunkSize == Vec3(0.0, 0.0, 0.0) && voxelSize == Vec3(0.0, 0.0, 0.0)
    {
      seed := 0;
      surface := 0.0;
      chunks := new Chunk?[0];
      chunkSize := Vec3(0.0, 0.0, 0.0);
      voxelSize := Vec3(0.0, 0.0, 0.0);
    }

    /** Builds a level of `chunkGrid` chunks, each of `voxelGrid` voxels, spread
        over `levelSize`. */
    method GenerateXYZ(levelSize: Vec3, chunkGrid: Int3, voxelGrid: Int3, surface: real, seed: int,
                       perlin: SeededNoise)
      requires Positive(chunkGrid) && Positive(voxelGrid)
      modifies this
      ensures this.seed == seed && this.surface == surface
      ensures chunkSize == PartSize(levelSize, chunkGrid)
      ensures voxelSize == PartSize(chunkSize, voxelGrid)
      ensures fresh(chunks) && chunks.Length == chunkGrid.x * chunkGrid.y * chunkGrid.z
      ensures forall n :: 0 <= n < chunks.Length ==>
                chunks[n] != null &&
                ChunkBuilt(chunks[n], Unflatten(n, chunkGrid), voxelGrid, chunkSize, voxelSize, surface, perlin(seed))
      ensures forall n :: 0 <= n < chunks.Length ==> chunks[n] != null && fresh(chunks[n].voxels)
      ensures forall x, y :: 0 <= x < y < chunks.Length ==>
                chunks[x] != null && chunks[y] != null && chunks[x].voxels != chunks[y].voxels
    {
      this.seed := seed;
      this.surface := surface;
      var cells := new Chunk?[chunkGrid.x * chunkGrid.y * chunkGrid.z];
      chunks := cells;
      chunkSize := PartSize(levelSize, chunkGrid);
      voxelSize := PartSize(chunkSize, voxelGrid);
      ghost var noise := perlin(seed);
      ghost var n := 0;
      var k := 0;
      while k < chunkGrid.z
        invariant 0 <= k <= chunkGrid.z && n == Flatten(Int3(0, 0, k), chunkGrid) && n <= cells.Length
        invariant forall m :: 0 <= m < n ==>
                    cells[m] != null && ChunkBuilt(cells[m], Unflatten(m, chunkGrid), voxelGrid, chunkSize, voxelSize, surface, noise)
        invariant forall m :: 0 <= m < n ==> cells[m] != null && fresh(cells[m].voxels)
        invariant forall x, y :: 0 <= x < y < n ==>
                    cells[x] != null && cells[y] != null && cells[x].voxels != cells[y].voxels
        modifies cells
      {
        label BeforeSlice:
        GenerateSlice(cells, k, chunkGrid, voxelGrid, chunkSize, voxelSize, this.surface, perlin(this.seed));
        forall x, y | 0 <= x < n <= y < Flatten(Int3(0, 0, k + 1), chunkGrid)
          ensures cells[x] != null && cells[y] != null && cells[x].voxels != cells[y].voxels
        {
          assert old@BeforeSlice(allocated(cells[x].voxels));
        }
        n := Flatten(Int3(0, 0, k + 1), chunkGrid);
        k := k + 1;
      }
      FlattenEnd(chunkGrid);
    }

    /** Builds a level divided into chunks along x and z only: the chunk grid
        (x, 1, y) of GenerateXYZ. */
    method GenerateXZ(levelSize: Vec3, chunkGrid: Int2, voxelGrid: Int3, surface: real, seed: int := 0,
                      perlin: SeededNoise)
      requires chunkGrid.x >= 1 && chunkGrid.y >= 1 && Positive(voxelGrid)
      modifies this
      ensures var grid := Int3(chunkGrid.x, 1, chunkGrid.y);
              && this.seed == seed && this.surface == surface
              && chunkSize == PartSize(levelSize, grid)
              && voxelSize == PartSize(chunkSize, voxelGrid)
              && fresh(chunks) && chunks.Length == chunkGrid.x * chunkGrid.y
              && forall n :: 0 <= n < chunks.Length ==>
                   chunks[n] != null &&
                   ChunkBuilt(chunks[n], Unflatten(n, grid), voxelGrid, chunkSize, voxelSize, surface, perlin(seed))
      ensures forall n :: 0 <= n < chunks.Length ==> chunks[n] != null && fresh(chunks[n].voxels)
      ensures forall x, y :: 0 <= x < y < chunks.Length ==>
                chunks[x] != null && chunks[y] != null && chunks[x].voxels != chunks[y].voxels
    {
      GenerateXYZ(levelSize, Int3(chunkGrid.x, 1, chunkGrid.y), voxelGrid, surface, seed, perlin);
    }
  }
}
