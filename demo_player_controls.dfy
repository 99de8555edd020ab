/** The demo player's terrain editing (Demo/DemoPlayerControls.cs, EditTerrain):
    a left click digs and a right click builds where the camera ray hits the
    terrain, editing every chunk whose colliders overlap the edit sphere, each
    exactly once. */
module DemoPlayerControls {
  import opened Grid
  import opened Chunks
  import opened LevelGeneration
  import opened TerrainEditing

  datatype Option<T> = None | Some(value: T)

  /** The list `editChunks` ends with after the collider loop: every non-null
      chunk of `found` once, in the order it first appears. */
  function Dedup(found: seq<Chunk?>): (r: seq<Chunk>)
    ensures |r| <= |found|
    decreases |found|
  {
    if |found| == 0 then []
    else
      var d := Dedup(found[..|found| - 1]);
      var c := found[|found| - 1];
      if c != null && c !in d then d + [c] else d
  }

  /** The position of the first occurrence of `c` in `s`. */
  function FirstIndex(s: seq<Chunk?>, c: Chunk): (r: nat)
    requires c in s
    ensures r < |s| && s[r] == c
    ensures forall m :: 0 <= m < r ==> s[m] != c
  {
    if s[0] == c then 0 else FirstIndex(s[1..], c) + 1
  }

  /** A chunk ends up in the list exactly when some collider belongs to it. */
  lemma {:induction false} DedupMembers(found: seq<Chunk?>)
    ensures forall c: Chunk? :: c in Dedup(found) <==> c != null && c in found
    decreases |found|
  {
    if |found| > 0 {
      var p := found[..|found| - 1];
      assert found == p + [found[|found| - 1]];
      DedupMembers(p);
    }
  }

  predicate NoDuplicates(s: seq<Chunk>) {
    forall a, b :: 0 <= a < b < |s| ==> s[a] != s[b]
  }

  /** No chunk is listed twice. */
  lemma {:induction false} DedupDistinct(found: seq<Chunk?>)
    ensures NoDuplicates(Dedup(found))
    decreases |found|
  {
    if |found| > 0 {
      var p := found[..|found| - 1];
      DedupDistinct(p);
      var d, dp := Dedup(found), Dedup(p);
      var c := found[|found| - 1];
      if c != null && c !in dp {
        assert d == dp + [c];
        forall a, b | 0 <= a < b < |d|
          ensures d[a] != d[b]
        {
          assert d[a] == dp[a] && dp[a] in dp;
        }
      }
    }
  }

  /** Chunks are listed in the order of their first collider. */
  lemma {:induction false} DedupFirstOrder(found: seq<Chunk?>)
    ensures forall a :: 0 <= a < |Dedup(found)| ==> Dedup(found)[a] in found
    ensures forall a, b :: 0 <= a < b < |Dedup(found)| ==>
              Dedup(found)[a] in found && Dedup(found)[b] in found &&
              FirstIndex(found, Dedup(found)[a]) < FirstIndex(found, Dedup(found)[b])
    decreases |found|
  {
    DedupMembers(found);
    if |found| > 0 {
      var p := found[..|found| - 1];
      var c := found[|found| - 1];
      assert found == p + [c];
      DedupMembers(p);
      DedupFirstOrder(p);
      var d, dp := Dedup(found), Dedup(p);
      assert d == dp || (c != null && c !in dp && d == dp + [c]);
      forall a, b | 0 <= a < b < |Dedup(found)|
        ensures && Dedup(found)[a] in found && Dedup(found)[b] in found
                && FirstIndex(found, Dedup(found)[a]) < FirstIndex(found, Dedup(found)[b])
      {
        assert d[a] == dp[a] && dp[a] in dp;
        DedupMember(p, dp[a]);
        FirstIndexPrefix(p, [c], dp[a]);
        if b < |dp| {
          assert d[b] == dp[b] && dp[b] in dp;
          DedupMember(p, dp[b]);
          FirstIndexPrefix(p, [c], dp[b]);
        } else {
          assert d[b] == c && c !in p;
          assert FirstIndex(found, c) == |p|;
        }
      }
    }
  }

  /** One chunk of the list comes from `found`. */
  lemma DedupMember(found: seq<Chunk?>, x: Chunk)
    requires x in Dedup(found)
    ensures x in found
  {
    DedupMembers(found);
  }

  /** Appending never moves the first occurrence of an element already present. */
  lemma {:induction false} FirstIndexPrefix(p: seq<Chunk?>, q: seq<Chunk?>, x: Chunk)
    requires x in p
    ensures x in p + q && FirstIndex(p + q, x) == FirstIndex(p, x) < |p|
    decreases |p|
  {
    if p[0] != x {
      assert (p + q)[1..] == p[1..] + q;
      FirstIndexPrefix(p[1..], q, x);
    }
  }

  /** EditTerrain's collider loop: keeps each chunk the first time one of its
      colliders is seen and skips colliders without a chunk. */
  method CollectEditChunks(found: seq<Chunk?>) returns (editChunks: seq<Chunk>)
    ensures editChunks == Dedup(found)
  {
    editChunks := [];
    for n := 0 to |found|
      invariant editChunks == Dedup(found[..n])
    {
      var chunk := found[n];
      assert found[..n + 1][..n] == found[..n];
      if chunk != null && chunk !in editChunks {
        editChunks := editChunks + [chunk];
      }
    }
    assert found[..|found|] == found;
  }

  /** EditTerrain's dispatch loop: one CreateEditTask per listed chunk, with the
      same hit point, radius and mode. The chunks have pairwise distinct voxel
      arrays, so each is edited exactly once and no edit disturbs another chunk. */
  method EditChunks(editor: Editor, chunks: seq<Chunk>, hitPos: Vec3, radius: real, isSubtract: bool,
                    isGradient: bool, level: Level, magnitude: Magnitude)
    requires forall c :: c in chunks ==> c.Valid()
    requires forall a, b :: 0 <= a < b < |chunks| ==> chunks[a].voxels != chunks[b].voxels
    requires isGradient ==> radius != 0.0
    modifies editor`isPerformingTask, set c | c in chunks :: c.voxels, chunks`meshRequests
    ensures editor.isPerformingTask == (old(editor.isPerformingTask) || |chunks| > 0)
    ensures forall c :: c in chunks ==>
              && c.Valid()
              && c.voxels[..] == Edited(old(c.voxels[..]), c.size, Sub(hitPos, c.position), radius, isSubtract,
                                        isGradient, level.voxelSize, magnitude)
              && c.meshRequests == old(c.meshRequests) + [MeshRequest(c.voxels[..], c.size, level.voxelSize, level.surface)]
  {
    for n := 0 to |chunks|
      invariant editor.isPerformingTask == (old(editor.isPerformingTask) || n > 0)
      invariant forall m :: 0 <= m < n ==>
                  && chunks[m].Valid()
                  && chunks[m].voxels[..]
                     == Edited(old(chunks[m].voxels[..]), chunks[m].size, Sub(hitPos, chunks[m].position), radius,
                               isSubtract, isGradient, level.voxelSize, magnitude)
                  && chunks[m].meshRequests
                     == old(chunks[m].meshRequests)
                        + [MeshRequest(chunks[m].voxels[..], chunks[m].size, level.voxelSize, level.surface)]
      invariant forall m :: n <= m < |chunks| ==>
                  && chunks[m].Valid()
                  && chunks[m].voxels[..] == old(chunks[m].voxels[..])
                  && chunks[m].meshRequests == old(chunks[m].meshRequests)
    {
      editor.CreateEditTask(chunks[n], hitPos, radius, isSubtract, isGradient, level, magnitude);
    }
  }

  /** The demo player's serialized editing settings. Movement and mouse look are
      not part of this model. */
  class DemoPlayerControls {
    var raycastRange: real
    var editRadius: real
    var useGradient: bool

    /** The inspector defaults. */
    constructor ()
      ensures raycastRange == 5.0 && editRadius == 1.0 && !useGradient
    {
      raycastRange := 5.0;
      editRadius := 1.0;
      useGradient := false;
    }

    /** One frame of terrain editing. `hit` is the camera raycast within
        `raycastRange` and `found` is, for each collider overlapping the sphere of
        `editRadius` around the hit point, the chunk it belongs to (null for none).
        A left click digs (subtract), otherwise a right click builds; without a
        click or a hit nothing changes. */
    method EditTerrain(mouse0Down: bool, mouse1Down: bool, hit: Option<Vec3>, found: seq<Chunk?>,
                       editor: Editor, level: Level, magnitude: Magnitude)
      requires forall c: Chunk :: c in found ==> c.Valid()
      requires forall c: Chunk, d: Chunk :: c in found && d in found && c != d ==> c.voxels != d.voxels
      requires useGradient ==> editRadius != 0.0
      modifies editor`isPerformingTask, set c: Chunk | c in found :: c.voxels, found`meshRequests
      ensures forall c: Chunk :: c in found ==> c.Valid()
      ensures (mouse0Down || mouse1Down) && hit.Some? ==>
                && editor.isPerformingTask == (old(editor.isPerformingTask) || |Dedup(found)| > 0)
                && forall c: Chunk :: c in found ==>
                     && c.Valid()
                     && c.voxels[..] == Edited(old(c.voxels[..]), c.size, Sub(hit.value, c.position), editRadius,
                                               mouse0Down, useGradient, level.voxelSize, magnitude)
                     && c.meshRequests
                        == old(c.meshRequests) + [MeshRequest(c.voxels[..], c.size, level.voxelSize, level.surface)]
      ensures !((mouse0Down || mouse1Down) && hit.Some?) ==>
                && editor.isPerformingTask == old(editor.isPerformingTask)
                && forall c: Chunk :: c in found ==>
                     c.voxels[..] == old(c.voxels[..]) && c.meshRequests == old(c.meshRequests)
    {
      if mouse0Down {
        if hit.Some? {
          EditAround(hit.value, true, found, editor, level, magnitude);
        }
      } else if mouse1Down {
        if hit.Some? {
          EditAround(hit.value, false, found, editor, level, magnitude);
        }
      }
    }

    /** The body both clicks share: list the chunks found, each once, then edit
        every listed chunk around the hit point. */
    method EditAround(hitPos: Vec3, isSubtract: bool, found: seq<Chunk?>, editor: Editor, level: Level,
                      magnitude: Magnitude)
      requires forall c: Chunk :: c in found ==> c.Valid()
      requires forall c: Chunk, d: Chunk :: c in found && d in found && c != d ==> c.voxels != d.voxels
      requires useGradient ==> editRadius != 0.0
      modifies editor`isPerformingTask, set c: Chunk | c in found :: c.voxels, found`meshRequests
      ensures editor.isPerformingTask == (old(editor.isPerformingTask) || |Dedup(found)| > 0)
      ensures forall c: Chunk :: c in found ==>
                && c.Valid()
                && c.voxels[..] == Edited(old(c.voxels[..]), c.size, Sub(hitPos, c.position), editRadius,
                                          isSubtract, useGradient, level.voxelSize, magnitude)
                && c.meshRequests
                   == old(c.meshRequests) + [MeshRequest(c.voxels[..], c.size, level.voxelSize, level.surface)]
    {
      var editChunks := CollectEditChunks(found);
      EditFound(found, editChunks);
      assert forall c :: c in editChunks ==> c in found;
      EditChunks(editor, editChunks, hitPos, editRadius, isSubtract, useGradient, level, magnitude);
    }
  }

  /** The deduplicated list holds exactly the chunks found, each once, so chunks
      with distinct voxel arrays stay distinct in it. */
  lemma EditFound(found: seq<Chunk?>, editChunks: seq<Chunk>)
    requires editChunks == Dedup(found)
    requires forall c: Chunk, d: Chunk :: c in found && d in found && c != d ==> c.voxels != d.voxels
    ensures forall c: Chunk? :: c in editChunks <==> c != null && c in found
    ensures forall a, b :: 0 <= a < b < |editChunks| ==> editChunks[a].voxels != editChunks[b].voxels
    ensures forall c :: c in editChunks ==> c.voxels in (set c: Chunk | c in found :: c.voxels)
  {
    DedupMembers(found);
    DedupDistinct(found);
    forall a, b | 0 <= a < b < |editChunks|
      ensures editChunks[a].voxels != editChunks[b].voxels
    {
      assert editChunks[a] in editChunks && editChunks[b] in editChunks;
    }
  }
}
