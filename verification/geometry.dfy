/**
  The geometry kernel: axis-aligned boxes with half-open extents, the overlap
  test every engine uses, and the two rotation tables (the greedy packer's
  de-duplicated list and the annealer's eight-entry table).
 */
module Geometry {

  datatype Dims = Dims(length: real, width: real, height: real)

  datatype Point = Point(x: real, y: real, z: real)

  /** A box occupying [x, x + length) x [y, y + width) x [z, z + height). */
  datatype Box = Box(x: real, y: real, z: real, length: real, width: real, height: real)

  function DimsVolume(d: Dims): real {
    d.length * d.width * d.height
  }

  function MaxReal(a: real, b: real): real {
    if a >= b then a else b
  }

  function MinReal(a: real, b: real): real {
    if a <= b then a else b
  }

  // ---------------------------------------------------------------------------
  // Overlap

  /** `isOverlapping`: the boxes are not separated along any axis. */
  predicate Overlapping(a: Box, b: Box) {
    !(a.x >= b.x + b.length || b.x >= a.x + a.length ||
      a.y >= b.y + b.width || b.y >= a.y + a.width ||
      a.z >= b.z + b.height || b.z >= a.z + a.height)
  }

  predicate InBox(p: Point, b: Box) {
    && b.x <= p.x < b.x + b.length
    && b.y <= p.y < b.y + b.width
    && b.z <= p.z < b.z + b.height
  }

  predicate HasExtent(b: Box) {
    b.length > 0.0 && b.width > 0.0 && b.height > 0.0
  }

  lemma OverlapSymmetric(a: Box, b: Box)
    ensures Overlapping(a, b) <==> Overlapping(b, a)
  {
  }

  /** Boxes that only touch at a face are not overlapping. */
  lemma FaceContactIsNotOverlap(a: Box, b: Box)
    requires a.x + a.length == b.x || a.y + a.width == b.y || a.z + a.height == b.z
    ensures !Overlapping(a, b) && !Overlapping(b, a)
  {
  }

  /** For boxes with volume, the overlap test is exactly "some point lies in both". */
  lemma OverlapIffSharedPoint(a: Box, b: Box)
    requires HasExtent(a) && HasExtent(b)
    ensures Overlapping(a, b) <==> exists p :: InBox(p, a) && InBox(p, b)
  {
    if Overlapping(a, b) {
      var p := Point(MaxReal(a.x, b.x), MaxReal(a.y, b.y), MaxReal(a.z, b.z));
      assert InBox(p, a) && InBox(p, b);
    }
  }

  // ---------------------------------------------------------------------------
  // Two-dimensional footprints

  /** A rectangle occupying [x, x + width) x [y, y + height) of a stock's top face. */
  datatype Rect = Rect(x: real, y: real, width: real, height: real)

  predicate RectsOverlap(a: Rect, b: Rect) {
    !(a.x >= b.x + b.width || b.x >= a.x + a.width ||
      a.y >= b.y + b.height || b.y >= a.y + a.height)
  }

  // ---------------------------------------------------------------------------
  // Orientations

  /** `a` lists the same three extents as `b`, in some order. */
  predicate IsPermutation(a: Dims, b: Dims) {
    || a == Dims(b.length, b.width, b.height)
    || a == Dims(b.length, b.height, b.width)
    || a == Dims(b.width, b.length, b.height)
    || a == Dims(b.width, b.height, b.length)
    || a == Dims(b.height, b.length, b.width)
    || a == Dims(b.height, b.width, b.length)
  }

  /** Reordering the extents keeps the volume. */
  lemma PermutationVolume(a: Dims, b: Dims)
    requires IsPermutation(a, b)
    ensures DimsVolume(a) == DimsVolume(b)
  {
    var l, w, h := b.length, b.width, b.height;
    assert l * h * w == l * w * h && w * l * h == l * w * h && w * h * l == l * w * h;
    assert h * l * w == l * w * h && h * w * l == l * w * h;
  }

  /** The extents as a multiset: the same for every reordering. */
  lemma PermutationMultiset(a: Dims, b: Dims)
    requires IsPermutation(a, b)
    ensures multiset{a.length, a.width, a.height} == multiset{b.length, b.width, b.height}
  {
  }

  /** The greedy packer's rotation, `{ length, width, height, rotationId }`. */
  datatype Rotation = Rotation(dims: Dims, rotationId: nat)

  /** The seven entries `getRotations` lists before filtering. */
  function PackerRotationTable(d: Dims): (r: seq<Rotation>)
    ensures |r| == 7
    ensures forall k :: 0 <= k < 7 ==> r[k].rotationId == k
    ensures forall k :: 0 <= k < 7 ==> IsPermutation(r[k].dims, d)
    ensures r[0].dims == d && r[6].dims == r[3].dims
  {
    var l, w, h := d.length, d.width, d.height;
    [ Rotation(Dims(l, w, h), 0),
      Rotation(Dims(w, l, h), 1),
      Rotation(Dims(l, h, w), 2),
      Rotation(Dims(h, w, l), 3),
      Rotation(Dims(w, h, l), 4),
      Rotation(Dims(h, l, w), 5),
      Rotation(Dims(h, w, l), 6) ]
  }

  predicate Indexed(rs: seq<Rotation>) {
    forall k :: 0 <= k < |rs| ==> rs[k].rotationId == k
  }

  /** Entry `k` has the same extents as an entry before it. */
  predicate RepeatsEarlier(rs: seq<Rotation>, k: nat)
    requires k < |rs|
  {
    exists j :: 0 <= j < k && rs[j].dims == rs[k].dims
  }

  /** The filter of `getRotations`: keep an entry only if no earlier entry has the same extents. */
  function KeepFirstDims(rs: seq<Rotation>, i: nat): (r: seq<Rotation>)
    requires i <= |rs| && Indexed(rs)
    decreases |rs| - i
    ensures |r| <= |rs| - i
    ensures (exists k :: i <= k < |rs| && RepeatsEarlier(rs, k)) ==> |r| < |rs| - i
    ensures forall a :: 0 <= a < |r| ==>
      i <= r[a].rotationId < |rs| && rs[r[a].rotationId] == r[a] && !RepeatsEarlier(rs, r[a].rotationId)
    ensures forall a, b :: 0 <= a < b < |r| ==> r[a].rotationId < r[b].rotationId
    ensures forall k :: i <= k < |rs| && !RepeatsEarlier(rs, k) ==> rs[k] in r
    ensures forall a, b :: 0 <= a < b < |r| ==> r[a].dims != r[b].dims
  {
    if i == |rs| then []
    else if RepeatsEarlier(rs, i) then KeepFirstDims(rs, i + 1)
    else [rs[i]] + KeepFirstDims(rs, i + 1)
  }

  /** `getRotations`: the distinct orientations of a piece, original first. */
  function PackerRotations(d: Dims): (r: seq<Rotation>)
    ensures 1 <= |r| <= 6
    ensures r[0] == Rotation(d, 0)
    ensures forall a, b :: 0 <= a < b < |r| ==> r[a].dims != r[b].dims
    ensures forall a, b :: 0 <= a < b < |r| ==> r[a].rotationId < r[b].rotationId
    ensures forall a :: 0 <= a < |r| ==> r[a] in PackerRotationTable(d)
    ensures forall a :: 0 <= a < |r| ==> IsPermutation(r[a].dims, d)
  {
    var table := PackerRotationTable(d);
    assert !RepeatsEarlier(table, 0);
    assert RepeatsEarlier(table, 6) by {
      assert table[3].dims == table[6].dims;
    }
    KeepFirstDims(table, 0)
  }

  /** No orientation of the table is lost by the filter: each has an equal-extent survivor. */
  lemma {:induction false} PackerRotationsCover(d: Dims, k: nat)
    requires k < 7
    ensures exists a :: 0 <= a < |PackerRotations(d)| && PackerRotations(d)[a].dims == PackerRotationTable(d)[k].dims
  {
    var table := PackerRotationTable(d);
    var r := PackerRotations(d);
    if RepeatsEarlier(table, k) {
      var j :| 0 <= j < k && table[j].dims == table[k].dims;
      PackerRotationsCover(d, j);
    } else {
      assert table[k] in r;
      var a :| 0 <= a < |r| && r[a] == table[k];
    }
  }

  /** The annealer's eight-entry table; entries 6 and 7 repeat entries 3 and 4. */
  function AnnealingTable(d: Dims): (r: seq<Dims>)
    ensures |r| == 8
    ensures r[6] == r[3] && r[7] == r[4]
    ensures forall k :: 0 <= k < 8 ==> IsPermutation(r[k], d)
  {
    var l, w, h := d.length, d.width, d.height;
    [ Dims(l, w, h), Dims(w, l, h), Dims(l, h, w), Dims(h, l, w),
      Dims(w, h, l), Dims(h, w, l), Dims(h, l, w), Dims(w, h, l) ]
  }

  /** `getRotatedDimensions`: the table entry at `rotation % 8`. */
  function RotatedDimensions(d: Dims, rotation: nat): (r: Dims)
    ensures IsPermutation(r, d)
    ensures DimsVolume(r) == DimsVolume(d)
    ensures rotation % 8 == 0 ==> r == d
  {
    var r := AnnealingTable(d)[rotation % 8];
    PermutationVolume(r, d);
    r
  }

  /** Every permutation of the three extents is reachable through some rotation number below 6. */
  lemma AnnealingTableComplete(d: Dims, e: Dims)
    requires e in {Dims(d.length, d.width, d.height), Dims(d.length, d.height, d.width),
                   Dims(d.width, d.length, d.height), Dims(d.width, d.height, d.length),
                   Dims(d.height, d.length, d.width), Dims(d.height, d.width, d.length)}
    ensures exists k :: 0 <= k < 6 && RotatedDimensions(d, k) == e
  {
    var t := AnnealingTable(d);
    if e == t[0] { assert RotatedDimensions(d, 0) == e; }
    else if e == t[1] { assert RotatedDimensions(d, 1) == e; }
    else if e == t[2] { assert RotatedDimensions(d, 2) == e; }
    else if e == t[3] { assert RotatedDimensions(d, 3) == e; }
    else if e == t[4] { assert RotatedDimensions(d, 4) == e; }
    else { assert RotatedDimensions(d, 5) == e; }
  }
}
