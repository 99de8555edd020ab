/** Digging and building (Scripts/TerrainEditing.cs): every voxel of a chunk
    within `radius` of the hit point is pushed up or down by a step of one or by
    a delta that fades linearly to zero at the radius, clamped to [-1, 1], and
    the chunk then asks for one remesh. */
module TerrainEditing {
  import opened Grid
  import opened Chunks
  import opened LevelGeneration

  /** One edit request: the chunk to edit, the world-space hit point, the radius,
      and the mode flags. */
  datatype EditTask = EditTask(chunk: Chunk, hitPos: Vec3, radius: real, isSubtract: bool, isGradient: bool)

  /** `new Vector3(i * VoxelSize.x, j * VoxelSize.y, k * VoxelSize.z)`: the cell's
      chunk-local position as the edit computes it. */
  function EditPos(c: Int3, voxelSize: Vec3): Vec3 {
    Vec3(c.x as real * voxelSize.x, c.y as real * voxelSize.y, c.z as real * voxelSize.z)
  }

  /** `1` for subtract, `-1` for add: the sign of every delta, as
      `-1 + 2 * Convert.ToInt32(isSubtract)`. */
  function EditSign(isSubtract: bool): (r: real)
    ensures r == 1.0 || r == -1.0
    ensures isSubtract <==> r == 1.0
  {
    -1.0 + 2.0 * ToInt(isSubtract) as real
  }

  /** The step mode's new unclamped value: one up when subtracting, one down when adding. */
  function StepValue(v: real, isSubtract: bool): (r: real)
    ensures isSubtract ==> r == v + 1.0
    ensures !isSubtract ==> r == v - 1.0
  {
    v - 1.0 + 2.0 * ToInt(isSubtract) as real
  }

  /** The gradient mode's delta, `Mathf.Lerp(sign, 0, dist / radius)`. */
  function GradientDelta(dist: real, radius: real, isSubtract: bool): real
    requires radius != 0.0
  {
    Lerp(EditSign(isSubtract), 0.0, dist / radius)
  }

  /** The new value of one cell at distance `dist` from the hit point. */
  function EditCell(v: real, dist: real, radius: real, isSubtract: bool, isGradient: bool): (r: real)
    requires isGradient ==> radius != 0.0
    ensures dist > radius ==> r == v
    ensures dist <= radius ==> -1.0 <= r <= 1.0
  {
    if dist <= radius then
      var value := if isGradient then v + GradientDelta(dist, radius, isSubtract) else StepValue(v, isSubtract);
      Clamp(value, -1.0, 1.0)
    else
      v
  }

  /** The whole array after one edit of a chunk of size `s`, with the hit point
      already made chunk-local. */
  ghost function Edited(v: seq<real>, s: Int3, hitLocal: Vec3, radius: real, isSubtract: bool, isGradient: bool,
                        voxelSize: Vec3, magnitude: Magnitude): (r: seq<real>)
    requires ValidSize(s) && |v| == Volume(s) && (isGradient ==> radius != 0.0)
    ensures |r| == |v|
  {
    ValidSizeVolume(s);
    seq(|v|, n requires 0 <= n < |v| =>
      var c := Unflatten(n, s);
      EditCell(v[n], magnitude(Sub(hitLocal, EditPos(c, voxelSize))), radius, isSubtract, isGradient))
  }

  /** Cell (i, j, k) of the edited array, written out: unchanged outside the radius;
      inside it, the old value plus the step or gradient delta, clamped. */
  lemma EditedAt(v: seq<real>, c: Int3, s: Int3, hitLocal: Vec3, radius: real, isSubtract: bool, isGradient: bool,
                 voxelSize: Vec3, magnitude: Magnitude)
    requires ValidSize(s) && |v| == Volume(s) && (isGradient ==> radius != 0.0) && InGrid(c, s)
    ensures 0 <= Flatten(c, s) < |v|
    ensures var n, dist := Flatten(c, s), magnitude(Sub(hitLocal, EditPos(c, voxelSize)));
            Edited(v, s, hitLocal, radius, isSubtract, isGradient, voxelSize, magnitude)[n]
              == if dist > radius then v[n]
                 else if isGradient then Clamp(v[n] + Lerp(if isSubtract then 1.0 else -1.0, 0.0, dist / radius), -1.0, 1.0)
                 else if isSubtract then Clamp(v[n] + 1.0, -1.0, 1.0)
                 else Clamp(v[n] - 1.0, -1.0, 1.0)
  {
    UnflattenFlatten(c, s);
  }

  /** Every cell outside the radius keeps its value, every cell inside it ends in
      [-1, 1], and if all cells started in [-1, 1] they all end there. */
  lemma EditedLocalAndClamped(v: seq<real>, s: Int3, hitLocal: Vec3, radius: real, isSubtract: bool, isGradient: bool,
                              voxelSize: Vec3, magnitude: Magnitude)
    requires ValidSize(s) && |v| == Volume(s) && (isGradient ==> radius != 0.0)
    ensures var r := Edited(v, s, hitLocal, radius, isSubtract, isGradient, voxelSize, magnitude);
            forall c :: InGrid(c, s) ==>
              var n, dist := Flatten(c, s), magnitude(Sub(hitLocal, EditPos(c, voxelSize)));
              && 0 <= n < |v|
              && (dist > radius ==> r[n] == v[n])
              && (dist <= radius ==> -1.0 <= r[n] <= 1.0)
    ensures (forall n :: 0 <= n < |v| ==> -1.0 <= v[n] <= 1.0) ==>
            var r := Edited(v, s, hitLocal, radius, isSubtract, isGradient, voxelSize, magnitude);
            forall n :: 0 <= n < |r| ==> -1.0 <= r[n] <= 1.0
  {
    var r := Edited(v, s, hitLocal, radius, isSubtract, isGradient, voxelSize, magnitude);
    forall c | InGrid(c, s)
      ensures var n, dist := Flatten(c, s), magnitude(Sub(hitLocal, EditPos(c, voxelSize)));
              && 0 <= n < |v|
              && (dist > radius ==> r[n] == v[n])
              && (dist <= radius ==> -1.0 <= r[n] <= 1.0)
    {
      UnflattenFlatten(c, s);
    }
    forall n | 0 <= n < |r| ensures r[n] == v[n] || -1.0 <= r[n] <= 1.0 {
      ValidSizeVolume(s);
      var c := Unflatten(n, s);
      assert r[n] == EditCell(v[n], magnitude(Sub(hitLocal, EditPos(c, voxelSize))), radius, isSubtract, isGradient);
    }
  }

  /** In gradient mode, within the radius, the delta is the sign times
      `1 - dist / radius`: full strength at the hit point, zero at the radius, and
      never larger in magnitude further out. */
  lemma GradientDeltaFades(d: real, e: real, radius: real, isSubtract: bool)
    requires radius > 0.0 && 0.0 <= d <= e <= radius
    ensures GradientDelta(d, radius, isSubtract) == EditSign(isSubtract) * (1.0 - d / radius)
    ensures GradientDelta(radius, radius, isSubtract) == 0.0
    ensures GradientDelta(0.0, radius, isSubtract) == EditSign(isSubtract)
    ensures Abs(GradientDelta(e, radius, isSubtract)) <= Abs(GradientDelta(d, radius, isSubtract))
  {
    DivBounds(d, e, radius);
    DivSelf(radius);
    LerpToZero(EditSign(isSubtract), d / radius);
    LerpToZero(EditSign(isSubtract), e / radius);
    LerpToZero(EditSign(isSubtract), 1.0);
    LerpToZero(EditSign(isSubtract), 0.0);
  }

  /** Within [0, 1], a Lerp to zero scales its start by `1 - t`, and shrinks in
      magnitude as `t` grows when the start is a sign. */
  lemma LerpToZero(a: real, t: real)
    requires 0.0 <= t <= 1.0 && (a == 1.0 || a == -1.0)
    ensures Lerp(a, 0.0, t) == a * (1.0 - t)
    ensures Abs(Lerp(a, 0.0, t)) == 1.0 - t
  {
    assert Clamp01(t) == t;
    if a == 1.0 {
      assert Lerp(a, 0.0, t) == 1.0 - t;
    } else {
      assert Lerp(a, 0.0, t) == t - 1.0;
    }
  }

  function Abs(x: real): real { if x < 0.0 then -x else x }

  lemma DivBounds(d: real, e: real, radius: real)
    requires radius > 0.0 && 0.0 <= d <= e <= radius
    ensures 0.0 <= d / radius <= e / radius <= 1.0
  {
    assert d / radius * radius == d && e / radius * radius == e;
  }

  /** Two identical step-subtract edits drive every in-radius cell that started at
      -1 or above to exactly 1; two step-add edits drive every in-radius cell that
      started at 1 or below to exactly -1. */
  lemma TwoStepsSaturate(v: seq<real>, s: Int3, hitLocal: Vec3, radius: real, isSubtract: bool,
                         voxelSize: Vec3, magnitude: Magnitude)
    requires ValidSize(s) && |v| == Volume(s)
    ensures var once := Edited(v, s, hitLocal, radius, isSubtract, false, voxelSize, magnitude);
            var twice := Edited(once, s, hitLocal, radius, isSubtract, false, voxelSize, magnitude);
            forall c :: InGrid(c, s) && magnitude(Sub(hitLocal, EditPos(c, voxelSize))) <= radius ==>
              var n := Flatten(c, s);
              && 0 <= n < |v|
              && (isSubtract && v[n] >= -1.0 ==> twice[n] == 1.0)
              && (!isSubtract && v[n] <= 1.0 ==> twice[n] == -1.0)
  {
    var once := Edited(v, s, hitLocal, radius, isSubtract, false, voxelSize, magnitude);
    var twice := Edited(once, s, hitLocal, radius, isSubtract, false, voxelSize, magnitude);
    forall c | InGrid(c, s) && magnitude(Sub(hitLocal, EditPos(c, voxelSize))) <= radius
      ensures var n := Flatten(c, s);
              && 0 <= n < |v|
              && (isSubtract && v[n] >= -1.0 ==> twice[n] == 1.0)
              && (!isSubtract && v[n] <= 1.0 ==> twice[n] == -1.0)
    {
      EditedAt(v, c, s, hitLocal, radius, isSubtract, false, voxelSize, magnitude);
      EditedAt(once, c, s, hitLocal, radius, isSubtract, false, voxelSize, magnitude);
    }
  }

  /** With the voxel size GenerateXYZ derives, the edit's cell position
      `i * voxelSize.x` is the stamps' `i / (size.x - 1) * chunkSize.x`: edits and
      stamps agree on where every cell is. */
  lemma EditPosIsStampPos(c: Int3, voxelGrid: Int3, chunkSize: Vec3)
    requires Positive(voxelGrid)
    ensures EditPos(c, PartSize(chunkSize, voxelGrid)) == StampPos(c, Grow(voxelGrid), chunkSize)
  {
    var s := Grow(voxelGrid);
    assert (s.x - 1) as real == voxelGrid.x as real;
    assert (s.y - 1) as real == voxelGrid.y as real;
    assert (s.z - 1) as real == voxelGrid.z as real;
    DivMulComm(c.x as real, voxelGrid.x as real, chunkSize.x);
    DivMulComm(c.y as real, voxelGrid.y as real, chunkSize.y);
    DivMulComm(c.z as real, voxelGrid.z as real, chunkSize.z);
  }

  /** Two chunks of a generated level that are neighbours along x, A at chunk cell p
      and B at p + (1, 0, 0), sharing the face x = (p.x + 1) * chunkSize.x. A single
      edit measures the same distance to A's last column and to B's first column, so
      a shared sample that held the same density in both chunks still does after
      the same edit is applied to each. */
  lemma EditedSharedFace(a: seq<real>, b: seq<real>, voxelGrid: Int3, chunkSize: Vec3, p: Int3, hitPos: Vec3,
                         j: int, k: int, radius: real, isSubtract: bool, isGradient: bool, magnitude: Magnitude)
    requires Positive(voxelGrid) && 0 <= j <= voxelGrid.y && 0 <= k <= voxelGrid.z
    requires |a| == Volume(Grow(voxelGrid)) && |b| == Volume(Grow(voxelGrid)) && (isGradient ==> radius != 0.0)
    ensures var s, vs := Grow(voxelGrid), PartSize(chunkSize, voxelGrid);
            var hitA := Sub(hitPos, ChunkOrigin(p, chunkSize));
            var hitB := Sub(hitPos, ChunkOrigin(Int3(p.x + 1, p.y, p.z), chunkSize));
            Sub(hitA, EditPos(Int3(s.x - 1, j, k), vs)) == Sub(hitB, EditPos(Int3(0, j, k), vs))
    ensures var s, vs := Grow(voxelGrid), PartSize(chunkSize, voxelGrid);
            var hitA := Sub(hitPos, ChunkOrigin(p, chunkSize));
            var hitB := Sub(hitPos, ChunkOrigin(Int3(p.x + 1, p.y, p.z), chunkSize));
            var na, nb := Flatten(Int3(s.x - 1, j, k), s), Flatten(Int3(0, j, k), s);
            && 0 <= na < |a| && 0 <= nb < |b|
            && (a[na] == b[nb] ==>
                  Edited(a, s, hitA, radius, isSubtract, isGradient, vs, magnitude)[na]
                  == Edited(b, s, hitB, radius, isSubtract, isGradient, vs, magnitude)[nb])
  {
    var s, vs := Grow(voxelGrid), PartSize(chunkSize, voxelGrid);
    assert voxelGrid.x as real * vs.x == chunkSize.x;
    EditedAt(a, Int3(s.x - 1, j, k), s, Sub(hitPos, ChunkOrigin(p, chunkSize)), radius, isSubtract, isGradient,
             vs, magnitude);
    EditedAt(b, Int3(0, j, k), s, Sub(hitPos, ChunkOrigin(Int3(p.x + 1, p.y, p.z), chunkSize)), radius, isSubtract,
             isGradient, vs, magnitude);
  }

  lemma DivMulComm(a: real, d: real, b: real)
    requires d != 0.0
    ensures a * (b / d) == a / d * b
  {
    assert a * (b / d) * d == a * b;
    assert a / d * b * d == a * b;
  }

  /** PerformEditTask's triple loop over one chunk's array: every cell within
      `radius` of `hitLocal` gets the step or gradient delta, clamped to [-1, 1]. */
  method EditVoxels(voxels: array<real>, size: Int3, hitLocal: Vec3, radius: real, isSubtract: bool, isGradient: bool,
                    voxelSize: Vec3, magnitude: Magnitude)
    requires ValidSize(size) && voxels.Length == Volume(size) && (isGradient ==> radius != 0.0)
    modifies voxels
    ensures voxels[..] == Edited(old(voxels[..]), size, hitLocal, radius, isSubtract, isGradient, voxelSize, magnitude)
  {
    ghost var spec := Edited(voxels[..], size, hitLocal, radius, isSubtract, isGradient, voxelSize, magnitude);
    if IsEmpty(size) {
      // size zero (no GenerateNoise yet): there are no cells and the loops do not run
      return;
    }
    ghost var n := 0;
    var k := 0;
    while k < size.z
      invariant 0 <= k <= size.z
      invariant n == Flatten(Int3(0, 0, k), size) && 0 <= n <= voxels.Length
      invariant forall m :: 0 <= m < n ==> voxels[m] == spec[m]
      invariant forall m :: n <= m < voxels.Length ==> voxels[m] == old(voxels[m])
    {
      var j := 0;
      while j < size.y
        invariant 0 <= j <= size.y
        invariant n == Flatten(Int3(0, j, k), size) && 0 <= n <= voxels.Length
        invariant forall m :: 0 <= m < n ==> voxels[m] == spec[m]
        invariant forall m :: n <= m < voxels.Length ==> voxels[m] == old(voxels[m])
      {
        var i := 0;
        while i < size.x
          invariant 0 <= i <= size.x
          invariant n == Flatten(Int3(i, j, k), size) && 0 <= n <= voxels.Length
          invariant forall m :: 0 <= m < n ==> voxels[m] == spec[m]
          invariant forall m :: n <= m < voxels.Length ==> voxels[m] == old(voxels[m])
        {
          var index := i + j * size.x + k * size.x * size.y;
          UnflattenFlatten(Int3(i, j, k), size);
          var voxelPos := EditPos(Int3(i, j, k), voxelSize);
          var dist := magnitude(Sub(hitLocal, voxelPos));
          assert spec[index] == EditCell(voxels[index], dist, radius, isSubtract, isGradient);
          if dist <= radius {
            var value: real;
            if isGradient {
              value := voxels[index] + GradientDelta(dist, radius, isSubtract);
            } else {
              value := voxels[index] - 1.0 + 2.0 * ToInt(isSubtract) as real;
            }
            voxels[index] := Clamp(value, -1.0, 1.0);
          }
          n := n + 1;
          i := i + 1;
        }
        FlattenNextRow(j, k, size);
        j := j + 1;
      }
      FlattenNextSlice(k, size);
      k := k + 1;
    }
    FlattenEnd(size);
    assert voxels[..] == spec;
  }

  /** The static `TerrainEditing` class: the (unused) task buffer and the flag
      PerformEditTask raises. */
  class Editor {
    var editTaskBuffer: seq<EditTask>
    var isPerformingTask: bool

    constructor ()
      ensures editTaskBuffer == [] && !isPerformingTask
    {
      editTaskBuffer := [];
      isPerformingTask := false;
    }

    /** Applies one edit to its chunk, cell by cell, then remeshes the chunk once
        with the level's voxel size and surface. */
    method PerformEditTask(t: EditTask, level: Level, magnitude: Magnitude)
      requires t.chunk.Valid() && (t.isGradient ==> t.radius != 0.0)
      modifies this`isPerformingTask, t.chunk.voxels, t.chunk`meshRequests
      ensures isPerformingTask
      ensures t.chunk.Valid()
      ensures t.chunk.voxels[..]
           == Edited(old(t.chunk.voxels[..]), t.chunk.size, Sub(t.hitPos, t.chunk.position), t.radius,
                     t.isSubtract, t.isGradient, level.voxelSize, magnitude)
      ensures t.chunk.meshRequests
           == old(t.chunk.meshRequests) + [MeshRequest(t.chunk.voxels[..], t.chunk.size, level.voxelSize, level.surface)]
    {
      isPerformingTask := true;
      var hitLocalPos := Sub(t.hitPos, t.chunk.position);
      EditVoxels(t.chunk.voxels, t.chunk.size, hitLocalPos, t.radius, t.isSubtract, t.isGradient, level.voxelSize, magnitude);
      t.chunk.CubeMarch(level.voxelSize, level.surface);
    }

    /** Builds the task and performs it at once; nothing is queued. */
    method CreateEditTask(chunk: Chunk, hitPos: Vec3, radius: real, isSubtract: bool := true, isGradient: bool := false,
                          level: Level, magnitude: Magnitude)
      requires chunk.Valid() && (isGradient ==> radius != 0.0)
      modifies this`isPerformingTask, chunk.voxels, chunk`meshRequests
      ensures isPerformingTask && editTaskBuffer == old(editTaskBuffer)
      ensures chunk.Valid()
      ensures chunk.voxels[..]
           == Edited(old(chunk.voxels[..]), chunk.size, Sub(hitPos, chunk.position), radius, isSubtract, isGradient,
                     level.voxelSize, magnitude)
      ensures chunk.meshRequests
           == old(chunk.meshRequests) + [MeshRequest(chunk.voxels[..], chunk.size, level.voxelSize, level.surface)]
    {
      PerformEditTask(EditTask(chunk, hitPos, radius, isSubtract, isGradient), level, magnitude);
    }
  }
}
