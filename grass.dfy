/** The grass point-cloud generator: samples jittered downward rays over a
    rectangular footprint, keeps the points where they hit the ground, and
    regenerates whenever its parameters or its position change. */
module Grass {
  import opened Geometry

  /** The physics query: the nearest point a ray hits, if it hits anything. */
  type Raycast = Ray -> Option<Vector3>

  /** The two random values drawn for one sample: the x jitter, then the z jitter. */
  datatype Draw = Draw(rx: real, rz: real)

  /** The range of `Random.Range(-0.5f, 0.5f)`: both ends included. */
  predicate InDrawRange(r: real) {
    -0.5 <= r <= 0.5
  }

  predicate ValidDraw(d: Draw) {
    InDrawRange(d.rx) && InDrawRange(d.rz)
  }

  /** What one generation pass reads besides the blade count: the anchor
      (the object's position), the cast height, the footprint size, the
      random draws for the samples in order, and the physics query. */
  datatype PassInputs = PassInputs(
    anchor: Vector3,
    startHeight: real,
    size: Vector2,
    draws: seq<Draw>,
    cast: Raycast)

  /** The mesh handed to the renderer: the vertex list and the index list,
      rendered as points. */
  datatype Cloud = Cloud(vertices: seq<Vector3>, indices: seq<int>)

  const EmptyCloud: Cloud := Cloud([], [])

  /** The number of times the generation loop runs for a blade count. */
  function SampleCount(numBlades: int): (n: nat)
    ensures numBlades <= 0 ==> n == 0
    ensures numBlades >= 0 ==> n == numBlades
  {
    if numBlades < 0 then 0 else numBlades
  }

  // ---------------------------------------------------------------------
  // Sampling
  // ---------------------------------------------------------------------

  /** The horizontal shift one draw gives along an axis of the given extent. */
  function Offset(extent: real, r: real): real {
    extent * r
  }

  /** The ray of one sample: the anchor moved to the absolute cast height,
      shifted horizontally by the size times the draws, pointing down. */
  function SampleRay(anchor: Vector3, startHeight: real, size: Vector2, d: Draw): Ray {
    Ray(Vector3(anchor.x + Offset(size.x, d.rx), startHeight, anchor.z + Offset(size.y, d.rz)), Down)
  }

  /** What the physics query reports for sample `i` of a pass. */
  function HitOf(p: PassInputs, i: int): Option<Vector3>
    requires 0 <= i < |p.draws|
  {
    p.cast(SampleRay(p.anchor, p.startHeight, p.size, p.draws[i]))
  }

  /** A draw in range moves a coordinate by at most half the extent it scales. */
  lemma JitterWithinHalfExtent(extent: real, r: real)
    requires InDrawRange(r)
    ensures Abs(extent * r) <= Abs(extent) / 2.0
  {
    assert Abs(extent * r) == Abs(extent) * Abs(r);
    assert Abs(extent) * Abs(r) <= Abs(extent) * 0.5;
  }

  /** Every sample ray starts exactly at the cast height, inside the
      footprint rectangle centred on the anchor, and points straight down. */
  lemma SampleRayInFootprint(anchor: Vector3, startHeight: real, size: Vector2, d: Draw)
    requires ValidDraw(d)
    ensures SampleRay(anchor, startHeight, size, d).origin.y == startHeight
    ensures SampleRay(anchor, startHeight, size, d).direction == Down
    ensures Abs(SampleRay(anchor, startHeight, size, d).origin.x - anchor.x) <= Abs(size.x) / 2.0
    ensures Abs(SampleRay(anchor, startHeight, size, d).origin.z - anchor.z) <= Abs(size.y) / 2.0
  {
    var o := SampleRay(anchor, startHeight, size, d).origin;
    JitterWithinHalfExtent(size.x, d.rx);
    JitterWithinHalfExtent(size.y, d.rz);
    assert o.x - anchor.x == size.x * d.rx;
    assert o.z - anchor.z == size.y * d.rz;
  }

  /** A non-negative offset of at most half a positive extent is a
      fraction of at most one half of it. */
  lemma QuotientAtMostHalf(offset: real, extent: real)
    requires extent > 0.0 && 0.0 <= offset <= extent / 2.0
    ensures 0.0 <= offset / extent <= 0.5
  {
    var q := offset / extent;
    assert q * extent == offset;
    assert (q - 0.5) * extent == offset - 0.5 * extent <= 0.0;
    assert q - 0.5 <= 0.0;
  }

  /** Some draw in range reaches any offset of at most half the extent. */
  lemma DrawForOffset(extent: real, offset: real) returns (r: real)
    requires Abs(offset) <= Abs(extent) / 2.0
    ensures InDrawRange(r) && extent * r == offset
  {
    if extent == 0.0 {
      r := 0.0;
    } else {
      var q := Abs(offset) / Abs(extent);
      QuotientAtMostHalf(Abs(offset), Abs(extent));
      assert Abs(extent) * q == Abs(offset);
      r := if (offset >= 0.0) == (extent > 0.0) then q else -q;
    }
  }

  /** Conversely, every point of the footprint rectangle at the cast height
      is the origin of the ray of some draw in range. */
  lemma FootprintReachable(anchor: Vector3, startHeight: real, size: Vector2, x: real, z: real)
    requires Abs(x - anchor.x) <= Abs(size.x) / 2.0
    requires Abs(z - anchor.z) <= Abs(size.y) / 2.0
    ensures exists d :: ValidDraw(d) && SampleRay(anchor, startHeight, size, d).origin == Vector3(x, startHeight, z)
  {
    var rx := DrawForOffset(size.x, x - anchor.x);
    var rz := DrawForOffset(size.y, z - anchor.z);
    var d := Draw(rx, rz);
    assert ValidDraw(d) && SampleRay(anchor, startHeight, size, d).origin == Vector3(x, startHeight, z);
  }

  // ---------------------------------------------------------------------
  // Point-cloud assembly
  // ---------------------------------------------------------------------

  /** The cloud the generation loop has built after its first `n` samples:
      each sample whose ray hits adds the hit point to the vertices and its
      own sample number to the indices; a sample that misses adds nothing. */
  function CloudOf(n: int, p: PassInputs): (c: Cloud)
    requires n <= |p.draws|
    ensures |c.vertices| == |c.indices| <= SampleCount(n)
    decreases n
  {
    if n <= 0 then EmptyCloud
    else
      var c := CloudOf(n - 1, p);
      match HitOf(p, n - 1)
      case Some(point) => Cloud(c.vertices + [point], c.indices + [n - 1])
      case None => c
  }

  /** The generation loop: for each of `numBlades` samples, build the ray,
      ask the physics query, and on a hit append the point and the sample
      number. Returns the vertex and index lists handed to the mesh, and
      (as ghost) the number of rays cast. */
  method AssembleCloud(numBlades: int, p: PassInputs)
      returns (vertices: seq<Vector3>, indices: seq<int>, ghost casts: nat)
    requires numBlades <= |p.draws|
    ensures Cloud(vertices, indices) == CloudOf(numBlades, p)
    ensures |vertices| == |indices| <= SampleCount(numBlades)
    ensures casts == SampleCount(numBlades)
  {
    vertices := [];
    indices := [];
    casts := 0;
    var i := 0;
    while i < numBlades
      invariant 0 <= i <= SampleCount(numBlades)
      invariant casts == i
      invariant Cloud(vertices, indices) == CloudOf(i, p)
    {
      var d := p.draws[i];
      var origin := p.anchor;
      origin := origin.(y := p.startHeight);
      origin := origin.(x := origin.x + Offset(p.size.x, d.rx));
      origin := origin.(z := origin.z + Offset(p.size.y, d.rz));
      var ray := Ray(origin, Down);
      assert origin == Vector3(p.anchor.x + Offset(p.size.x, d.rx), p.startHeight, p.anchor.z + Offset(p.size.y, d.rz));
      assert ray == SampleRay(p.anchor, p.startHeight, p.size, d);
      var hit := p.cast(ray);
      casts := casts + 1;
      if hit.Some? {
        origin := hit.value;
        vertices := vertices + [origin];
        indices := indices + [i];
      }
      i := i + 1;
    }
  }

  /** The indices are the sample numbers of the kept samples: each lies in
      [0, n) and they strictly increase. */
  lemma {:induction false} IndicesAreSampleNumbers(n: int, p: PassInputs)
    requires n <= |p.draws|
    ensures forall k :: 0 <= k < |CloudOf(n, p).indices| ==> 0 <= CloudOf(n, p).indices[k] < n
    ensures forall a, b :: 0 <= a < b < |CloudOf(n, p).indices| ==>
              CloudOf(n, p).indices[a] < CloudOf(n, p).indices[b]
  {
    if n > 0 {
      IndicesAreSampleNumbers(n - 1, p);
    }
  }

  /** The k-th vertex is exactly the point the physics query returned for
      the sample whose number is the k-th index. */
  lemma {:induction false} VerticesAreHits(n: int, p: PassInputs)
    requires n <= |p.draws|
    ensures forall k :: 0 <= k < |CloudOf(n, p).indices| ==>
              0 <= CloudOf(n, p).indices[k] < n &&
              HitOf(p, CloudOf(n, p).indices[k]) == Some(CloudOf(n, p).vertices[k])
  {
    if n > 0 {
      VerticesAreHits(n - 1, p);
    }
  }

  /** A sample is kept if and only if its ray hits. */
  lemma {:induction false} KeptIffHit(n: int, p: PassInputs)
    requires n <= |p.draws|
    ensures forall i :: 0 <= i < n ==> (HitOf(p, i).Some? <==> i in CloudOf(n, p).indices)
  {
    if n > 0 {
      KeptIffHit(n - 1, p);
      IndicesAreSampleNumbers(n - 1, p);
      var c := CloudOf(n - 1, p);
      assert n - 1 !in c.indices;
    }
  }

  /** The cloud is empty exactly when every ray misses; an all-miss pass is
      not an error. */
  lemma EmptyIffAllMiss(n: int, p: PassInputs)
    requires n <= |p.draws|
    ensures CloudOf(n, p) == EmptyCloud <==> forall i :: 0 <= i < n ==> HitOf(p, i).None?
  {
    var c := CloudOf(n, p);
    KeptIffHit(n, p);
    IndicesAreSampleNumbers(n, p);
    if c != EmptyCloud {
      assert |c.indices| > 0;
      var i := c.indices[0];
      assert 0 <= i < n && i in c.indices;
    }
  }

  /** With a non-positive blade count the loop never runs: the cloud is
      empty whatever the position, size, draws or physics. */
  lemma NoBladesNoCloud(numBlades: int, p: PassInputs, q: PassInputs)
    requires numBlades <= 0
    ensures CloudOf(numBlades, p) == EmptyCloud == CloudOf(numBlades, q)
  {
  }

  /** When every ray hits, there is one vertex per sample and the indices
      are exactly 0, 1, ..., n - 1. */
  lemma {:induction false} AllHitsGiveDenseIndices(n: int, p: PassInputs)
    requires 0 <= n <= |p.draws|
    requires forall i :: 0 <= i < n ==> HitOf(p, i).Some?
    ensures |CloudOf(n, p).vertices| == n
    ensures forall k :: 0 <= k < |CloudOf(n, p).indices| ==> CloudOf(n, p).indices[k] == k
  {
    if n > 0 {
      AllHitsGiveDenseIndices(n - 1, p);
    }
  }

  /** A miss among the first `n` samples leaves fewer than `n` vertices. */
  lemma {:induction false} MissLowersCount(n: int, p: PassInputs, m: int)
    requires n <= |p.draws|
    requires 0 <= m < n && HitOf(p, m).None?
    ensures |CloudOf(n, p).vertices| <= n - 1
  {
    if m < n - 1 {
      MissLowersCount(n - 1, p, m);
    }
  }

  /** As written, an index can name a vertex that does not exist: once a
      sample misses and a later one hits, the last index is at least the
      number of vertices. */
  lemma {:induction false} IndexOutOfRangeAfterMiss(n: int, p: PassInputs, m: int, j: int)
    requires n <= |p.draws|
    requires 0 <= m < j < n
    requires HitOf(p, m).None? && HitOf(p, j).Some?
    ensures |CloudOf(n, p).indices| > 0
    ensures CloudOf(n, p).indices[|CloudOf(n, p).indices| - 1] >= |CloudOf(n, p).vertices|
  {
    if HitOf(p, n - 1).Some? {
      MissLowersCount(n - 1, p, m);
    } else {
      IndexOutOfRangeAfterMiss(n - 1, p, m, j);
    }
  }

  /** As written, every index names an existing vertex if and only if no
      sample misses before a later sample hits. */
  lemma {:induction false} IndicesInRangeIffNoEarlyMiss(n: int, p: PassInputs)
    requires n <= |p.draws|
    ensures (forall k :: 0 <= k < |CloudOf(n, p).indices| ==> CloudOf(n, p).indices[k] < |CloudOf(n, p).vertices|)
        <==> !exists m, j :: 0 <= m < j < n && HitOf(p, m).None? && HitOf(p, j).Some?
  {
    var c := CloudOf(n, p);
    if exists m, j :: 0 <= m < j < n && HitOf(p, m).None? && HitOf(p, j).Some? {
      var m, j :| 0 <= m < j < n && HitOf(p, m).None? && HitOf(p, j).Some?;
      IndexOutOfRangeAfterMiss(n, p, m, j);
    } else if n > 0 {
      if HitOf(p, n - 1).Some? {
        assert forall i :: 0 <= i < n ==> HitOf(p, i).Some?;
        AllHitsGiveDenseIndices(n, p);
      } else {
        assert c == CloudOf(n - 1, p);
        assert !exists m, j :: 0 <= m < j < n - 1 && HitOf(p, m).None? && HitOf(p, j).Some?;
        IndicesInRangeIffNoEarlyMiss(n - 1, p);
      }
    }
  }

  /** A concrete pass of two samples where the first ray misses and the
      second hits: the only index is 1 while there is a single vertex. */
  lemma IndexOutOfRangeExample()
    ensures
      var p := PassInputs(Vector3(0.0, 0.0, 0.0), 10.0, Vector2(2.0, 2.0),
                          [Draw(-0.5, 0.0), Draw(0.5, 0.0)],
                          (r: Ray) => if r.origin.x > 0.0 then Some(Vector3(r.origin.x, 0.0, r.origin.z)) else None);
      CloudOf(2, p) == Cloud([Vector3(1.0, 0.0, 0.0)], [1])
  {
    var p := PassInputs(Vector3(0.0, 0.0, 0.0), 10.0, Vector2(2.0, 2.0),
                        [Draw(-0.5, 0.0), Draw(0.5, 0.0)],
                        (r: Ray) => if r.origin.x > 0.0 then Some(Vector3(r.origin.x, 0.0, r.origin.z)) else None);
    assert HitOf(p, 0) == None;
    assert HitOf(p, 1) == Some(Vector3(1.0, 0.0, 0.0));
    assert CloudOf(1, p) == EmptyCloud;
  }

  /** The evidently intended cloud: the same vertices, with each index the
      position its vertex was appended at (the vertex count minus one). */
  function CorrectedCloudOf(n: int, p: PassInputs): (c: Cloud)
    requires n <= |p.draws|
    ensures |c.vertices| == |c.indices| <= SampleCount(n)
    decreases n
  {
    if n <= 0 then EmptyCloud
    else
      var c := CorrectedCloudOf(n - 1, p);
      match HitOf(p, n - 1)
      case Some(point) => Cloud(c.vertices + [point], c.indices + [|c.vertices + [point]| - 1])
      case None => c
  }

  /** The corrected cloud keeps exactly the vertices of the loop as written,
      and its indices are 0, 1, ..., so each names an existing vertex. */
  lemma {:induction false} CorrectedIndicesNameVertices(n: int, p: PassInputs)
    requires n <= |p.draws|
    ensures CorrectedCloudOf(n, p).vertices == CloudOf(n, p).vertices
    ensures |CorrectedCloudOf(n, p).indices| == |CorrectedCloudOf(n, p).vertices|
    ensures forall k :: 0 <= k < |CorrectedCloudOf(n, p).indices| ==> CorrectedCloudOf(n, p).indices[k] == k
  {
    if n > 0 {
      CorrectedIndicesNameVertices(n - 1, p);
    }
  }

  // ---------------------------------------------------------------------
  // The generator component and its change tracker
  // ---------------------------------------------------------------------

  /** The generator component: its three parameters, the snapshot of the
      values it last generated for, and the mesh it last built. */
  class GrassPointCloudGenerator {
    var numBlades: int
    var startHeight: real
    var size: Vector2

    var lastNumBlades: int
    var lastStartHeight: real
    var lastSize: Vector2
    var lastPosition: Vector3

    var mesh: Cloud

    /** A freshly loaded component: the parameters as configured, the
        snapshot at its default (zero) values, no points yet. */
    constructor (numBlades: int, startHeight: real, size: Vector2)
      ensures this.numBlades == numBlades && this.startHeight == startHeight && this.size == size
      ensures lastNumBlades == 0 && lastStartHeight == 0.0
      ensures lastSize == Vector2(0.0, 0.0) && lastPosition == Vector3(0.0, 0.0, 0.0)
      ensures mesh == EmptyCloud
    {
      this.numBlades := numBlades;
      this.startHeight := startHeight;
      this.size := size;
      lastNumBlades := 0;
      lastStartHeight := 0.0;
      lastSize := Vector2(0.0, 0.0);
      lastPosition := Vector3(0.0, 0.0, 0.0);
      mesh := EmptyCloud;
    }

    /** The inputs of a pass at `position` with the current parameters. */
    function Inputs(position: Vector3, draws: seq<Draw>, cast: Raycast): PassInputs
      reads this
    {
      PassInputs(position, startHeight, size, draws, cast)
    }

    /** True when the snapshot matches the current parameters and position. */
    predicate UpToDate(position: Vector3)
      reads this
    {
      lastNumBlades == numBlades && lastStartHeight == startHeight &&
      lastSize == size && lastPosition == position
    }

    /** Builds a fresh cloud at `position` and replaces the mesh with it;
        nothing of the previous mesh survives. */
    method GenerateGrass(position: Vector3, draws: seq<Draw>, cast: Raycast)
      requires numBlades <= |draws|
      modifies this`mesh
      ensures mesh == CloudOf(numBlades, Inputs(position, draws, cast))
    {
      var vertices, indices, _ := AssembleCloud(numBlades, Inputs(position, draws, cast));
      mesh := Cloud(vertices, indices);
    }

    /** The editor tick: regenerates exactly when a parameter or the position
        differs from the snapshot, then records all four in the snapshot. */
    method Update(position: Vector3, draws: seq<Draw>, cast: Raycast) returns (regenerated: bool)
      requires numBlades <= |draws|
      modifies this
      ensures regenerated <==>
        (old(lastNumBlades) != numBlades || old(lastStartHeight) != startHeight ||
         old(lastSize) != size || old(lastPosition) != position)
      ensures numBlades == old(numBlades) && startHeight == old(startHeight) && size == old(size)
      ensures UpToDate(position)
      ensures mesh == if regenerated then CloudOf(numBlades, Inputs(position, draws, cast)) else old(mesh)
    {
      regenerated := false;
      if lastNumBlades != numBlades ||
         lastStartHeight != startHeight ||
         lastSize != size ||
         lastPosition != position
      {
        GenerateGrass(position, draws, cast);
        lastPosition := position;
        lastNumBlades := numBlades;
        lastStartHeight := startHeight;
        lastSize := size;
        regenerated := true;
      }
    }
  }

  /** Two ticks with nothing changed in between: the second one does not
      regenerate and leaves the mesh the first one built. */
  method UpdateTwiceRegeneratesOnce(g: GrassPointCloudGenerator, position: Vector3,
                                    draws: seq<Draw>, cast: Raycast, laterDraws: seq<Draw>, laterCast: Raycast)
      returns (first: bool, second: bool)
    requires g.numBlades <= |draws| && g.numBlades <= |laterDraws|
    modifies g
    ensures first <==> !old(g.UpToDate(position))
    ensures !second
    ensures g.numBlades == old(g.numBlades) && g.startHeight == old(g.startHeight) && g.size == old(g.size)
    ensures g.UpToDate(position)
    ensures first ==> g.mesh == CloudOf(g.numBlades, g.Inputs(position, draws, cast))
    ensures !first ==> g.mesh == old(g.mesh)
  {
    first := g.Update(position, draws, cast);
    second := g.Update(position, laterDraws, laterCast);
  }
}
