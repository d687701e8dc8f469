# Grass point-cloud generator, modelled in Dafny

This project models `GrassPointCloudGenerator`, the component that scatters grass-blade origins over
terrain. It has two parts:

- **The generation pass (`GenerateGrass`).** For each of `numBlades` samples, the pass builds a ray.
  The ray starts at the object's position, with its height replaced by the absolute `startHeight`.
  Its x and z are shifted by `size.x * r1` and `size.y * r2`, where r1 and r2 are random draws in
  [-0.5, 0.5]. The ray points straight down.
- **Hits and misses.** The pass asks the physics engine whether the ray hits anything. On a hit, it
  appends the hit point to the vertex list and the sample number `i` to the index list. A miss adds
  nothing.
- **The editor change tracker (`Update`).** On every tick it compares `numBlades`, `startHeight`,
  `size` and the position with a snapshot of their last values. If any of them differs, it
  regenerates and copies all four into the snapshot.

Files:

- `geometry.dfy`: module `Geometry`. Exact stand-ins for the engine's vectors and rays, plus an
  `Option` type for the physics result.
- `grass.dfy`: module `Grass`. It holds:
  - the sampling function `SampleRay` and its footprint lemmas;
  - `CloudOf`, a recursive specification of the cloud built after the first n samples;
  - `AssembleCloud`, the generation loop, proved equal to `CloudOf`;
  - the lemmas about `CloudOf`;
  - the class `GrassPointCloudGenerator`, with its parameters, its `last*` snapshot fields, its
    mesh, `GenerateGrass` and `Update`.

The physics raycast is a parameter `cast: Ray -> Option<Vector3>`. The random source is a parameter
`draws: seq<Draw>`, holding one pair (x draw, z draw) per sample, in the order the loop consumes
them. The object's position is a parameter of each call.

Where written descriptions of this component disagree with the code, the model follows the code:

- **Indices.** The indices are the original sample numbers (line 71), not 0, 1, ..., k-1. When a
  sample misses, they have a gap. See Findings.
- **Ray height.** Rays start at the absolute height `startHeight` (line 61), not at `startHeight`
  above the anchor.
- **Draw range.** A draw may equal 0.5. `Random.Range` on floats includes both ends.

## Model

| member | source | states |
|---|---|---|
| Grass.JitterWithinHalfExtent | Assets/Scripts/Grass/GrassPointCloudGenerator.cs:62-63 | a draw in [-0.5, 0.5] times an extent moves a coordinate by at most half of that extent, whatever the extent's sign |
| Grass.SampleRayInFootprint | Assets/Scripts/Grass/GrassPointCloudGenerator.cs:60-65 | `SampleRay` builds the ray of one sample from the anchor, `startHeight`, `size` and one draw (via `Offset`); every such ray starts exactly at `startHeight` and points straight down; its x and z differ from the anchor's by at most \|size.x\|/2 and \|size.y\|/2 |
| Grass.DrawForOffset | Assets/Scripts/Grass/GrassPointCloudGenerator.cs:62-63 | every offset of at most half the extent comes from some draw in [-0.5, 0.5] |
| Grass.FootprintReachable | Assets/Scripts/Grass/GrassPointCloudGenerator.cs:60-65 | every point of the footprint rectangle at height `startHeight` is the origin of the ray of some valid draw; with SampleRayInFootprint, the possible origins are exactly that rectangle |
| Grass.CloudOf | Assets/Scripts/Grass/GrassPointCloudGenerator.cs:56-73 | built from `HitOf`, the raycast of line 67 applied to the `SampleRay` of sample i; after n samples the vertex and index lists have equal length, at most max(n, 0) |
| Grass.AssembleCloud | Assets/Scripts/Grass/GrassPointCloudGenerator.cs:54-73 | the loop's vertex and index lists are exactly the cloud `CloudOf(numBlades, …)`, of equal length at most max(numBlades, 0); the loop casts exactly max(numBlades, 0) rays, none when `numBlades <= 0` |
| Grass.IndicesAreSampleNumbers | Assets/Scripts/Grass/GrassPointCloudGenerator.cs:58-71 | every index lies in [0, numBlades), and the indices strictly increase |
| Grass.VerticesAreHits | Assets/Scripts/Grass/GrassPointCloudGenerator.cs:65-71 | the k-th vertex is exactly the point the raycast returned for the sample numbered by the k-th index, so vertices come in sample order |
| Grass.KeptIffHit | Assets/Scripts/Grass/GrassPointCloudGenerator.cs:67-72 | a sample number appears among the indices if and only if that sample's ray hits; a miss contributes nothing |
| Grass.EmptyIffAllMiss | Assets/Scripts/Grass/GrassPointCloudGenerator.cs:56-73 | the cloud is empty if and only if every ray misses, and then no error occurs |
| Grass.NoBladesNoCloud | Assets/Scripts/Grass/GrassPointCloudGenerator.cs:56-58 | with `numBlades <= 0` the cloud is empty, whatever the position, size, draws or raycast |
| Grass.AllHitsGiveDenseIndices | Assets/Scripts/Grass/GrassPointCloudGenerator.cs:58-72 | when every ray hits there are exactly `numBlades` vertices, and the indices are 0, 1, ..., numBlades-1 |
| Grass.MissLowersCount | Assets/Scripts/Grass/GrassPointCloudGenerator.cs:58-72 | one miss among the first n samples leaves at most n-1 vertices |
| Grass.IndexOutOfRangeAfterMiss | Assets/Scripts/Grass/GrassPointCloudGenerator.cs:67-77 | if a sample misses and a later one hits, the last index is at least the vertex count, so it names no vertex |
| Grass.IndicesInRangeIffNoEarlyMiss | Assets/Scripts/Grass/GrassPointCloudGenerator.cs:67-77 | every index names an existing vertex if and only if no sample misses before a later sample hits |
| Grass.IndexOutOfRangeExample | Assets/Scripts/Grass/GrassPointCloudGenerator.cs:58-77 | two samples; the first misses and the second hits; the result is one vertex with the index list [1] |
| Grass.CorrectedCloudOf | Assets/Scripts/Grass/GrassPointCloudGenerator.cs:67-72 | the corrected cloud, which numbers each vertex by its position, still has equal-length lists of at most max(n, 0) entries |
| Grass.CorrectedIndicesNameVertices | Assets/Scripts/Grass/GrassPointCloudGenerator.cs:67-77 | the corrected cloud has the same vertices as the code's cloud, and its indices are 0, 1, ..., so each one names an existing vertex |
| Grass.GrassPointCloudGenerator.constructor | Assets/Scripts/Grass/GrassPointCloudGenerator.cs:16-36 | a new component has its configured parameters, a snapshot at the default zero values, and no points |
| Grass.GrassPointCloudGenerator.GenerateGrass | Assets/Scripts/Grass/GrassPointCloudGenerator.cs:54-79 | the mesh becomes the fresh cloud for the current parameters and position; nothing of the previous mesh remains, and nothing else changes |
| Grass.GrassPointCloudGenerator.Update | Assets/Scripts/Grass/GrassPointCloudGenerator.cs:38-51 | regenerates if and only if at least one of the four tracked values differs from its snapshot; afterwards all four snapshot fields equal the current values; the parameters are unchanged; without regeneration the mesh is untouched |
| Grass.UpdateTwiceRegeneratesOnce | Assets/Scripts/Grass/GrassPointCloudGenerator.cs:38-51 | the first tick regenerates exactly when the snapshot was out of date; the parameters are unchanged; a second tick with the parameters and position unchanged does not regenerate, and leaves the mesh the first tick left |

## Left out

- Physics raycasting (`Physics.Raycast`, `RaycastHit`) is not modelled. It is an engine service, so
  the model takes it as an arbitrary total function from a ray to an optional hit point. Any failure
  inside the physics engine is outside the model.
- `Random.Range` is not modelled. It is a process-wide engine random generator, so the model takes
  its results as an injected sequence `draws`. Only the footprint lemmas need the draws to lie in
  [-0.5, 0.5]. The requirement `numBlades <= |draws|` stands for a generator that never runs dry.
- Floating-point arithmetic is not modelled. Coordinates are exact reals. `!=` on
  `Vector2`/`Vector3` is exact here, while the engine's comparison is approximate, so tiny moves the
  engine ignores count as changes in the model.
- `Mesh`, `MeshFilter`, `SetVertices`, `SetIndices` and `MeshTopology.Points` are not modelled. The
  mesh is the pair of vertex and index sequences. The engine's own check on out-of-range indices is
  not modelled (see Findings).
- Lifecycle hooks are not modelled: `Awake`, `[ExecuteAlways]`, `[RequireComponent]` and
  `[SerializeField]`. The inspector writes the parameter fields directly.
- The non-editor `Start` path has no member of its own. It is one call of `GenerateGrass`.
- The `#if UNITY_EDITOR` split is not modelled. The class holds the snapshot fields in both builds.
- `transform.position` is a parameter of `GenerateGrass` and `Update`. `Update` reads it once and
  passes it to the pass, as the engine's value is the same throughout one tick.

## Findings

| source | as written | input that shows it | evidently intended | confidence | as-written member | corrected member |
|---|---|---|---|---|---|---|
| Assets/Scripts/Grass/GrassPointCloudGenerator.cs:71 | each hit adds its sample number `i` to the index list. That list goes to `SetIndices` with point topology, where an index names a vertex | two samples: the first ray misses and the second hits. There is one vertex, and the index list is [1], which names no vertex | each hit adds the position of its own vertex (`vertices.Count - 1`), so the indices are 0, 1, ..., count-1 | medium, not executed | Grass.IndicesInRangeIffNoEarlyMiss | Grass.CorrectedIndicesNameVertices |

`Grass.IndexOutOfRangeExample` shows the concrete input from this row. `Grass.CorrectedCloudOf` is
the corrected definition. `GenerateGrass` and `Update` keep the code's behaviour, because they model
the component as written.
