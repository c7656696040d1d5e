/**
  The greedy first-fit-decreasing 3D packer: `BinPacker3D` and
  `OptimizationEngine.optimize`. A packer is an immutable value holding the
  stock's extents and the boxes placed so far; every method of the class
  becomes a pure function returning the new packer.
 */
module GreedyPacker {
  import opened Foam
  import opened Geometry
  import opened Sorting

  /** A box placed in a stock block, `PlacedPiece`. */
  datatype Placed = Placed(pieceId: string, x: real, y: real, z: real,
                           length: real, width: real, height: real, rotated: bool)

  datatype Packer = Packer(stockLength: real, stockWidth: real, stockHeight: real, placed: seq<Placed>)

  /** The position and orientation `findBestPosition` returns. */
  datatype Fit = Fit(pos: Point, rotation: Rotation)

  function PlacedBox(p: Placed): Box {
    Box(p.x, p.y, p.z, p.length, p.width, p.height)
  }

  function PieceDims(p: Piece): Dims {
    Dims(p.length, p.width, p.height)
  }

  function RotatedBox(pos: Point, rot: Rotation): Box {
    Box(pos.x, pos.y, pos.z, rot.dims.length, rot.dims.width, rot.dims.height)
  }

  function NewPacker(s: Stock): (pk: Packer)
    ensures pk.placed == []
  {
    Packer(s.length, s.width, s.height, [])
  }

  // ---------------------------------------------------------------------------
  // canFit

  /** The loop of `canFit` over the placed boxes: does `b` overlap any of them? */
  function OverlapsAny(b: Box, placed: seq<Placed>): (r: bool)
    ensures r <==> exists i :: 0 <= i < |placed| && Overlapping(b, PlacedBox(placed[i]))
  {
    if |placed| == 0 then false
    else Overlapping(b, PlacedBox(placed[0])) || OverlapsAny(b, placed[1..])
  }

  /** The three upper-bound checks of `canFit`; there is no lower-bound check. */
  predicate WithinStockBounds(pk: Packer, b: Box) {
    b.x + b.length <= pk.stockLength && b.y + b.width <= pk.stockWidth && b.z + b.height <= pk.stockHeight
  }

  function CanFit(pk: Packer, pos: Point, rot: Rotation): (r: bool)
    ensures r <==> WithinStockBounds(pk, RotatedBox(pos, rot)) &&
                   forall i :: 0 <= i < |pk.placed| ==> !Overlapping(RotatedBox(pos, rot), PlacedBox(pk.placed[i]))
  {
    var b := RotatedBox(pos, rot);
    if pos.x + rot.dims.length > pk.stockLength ||
       pos.y + rot.dims.width > pk.stockWidth ||
       pos.z + rot.dims.height > pk.stockHeight then false
    else !OverlapsAny(b, pk.placed)
  }

  // ---------------------------------------------------------------------------
  // Candidate positions

  /** The bottom-left-front order: `(z, y, x)` ascending, the comparator of `generateCandidatePositions`. */
  predicate PointLe(a: Point, b: Point) {
    if a.z != b.z then a.z < b.z
    else if a.y != b.y then a.y < b.y
    else a.x <= b.x
  }

  lemma PointLeTotalPreorder()
    ensures TotalPreorder(PointLe)
  {
  }

  /** The three points at the far faces of a placed box. */
  function FaceAnchors(p: Placed): seq<Point> {
    [Point(p.x + p.length, p.y, p.z), Point(p.x, p.y + p.width, p.z), Point(p.x, p.y, p.z + p.height)]
  }

  function AllFaceAnchors(placed: seq<Placed>): (r: seq<Point>)
    ensures |r| == 3 * |placed|
  {
    if |placed| == 0 then [] else FaceAnchors(placed[0]) + AllFaceAnchors(placed[1..])
  }

  /** The anchors come three per placed box, in placement order. */
  lemma {:induction false} AllFaceAnchorsAt(placed: seq<Placed>, k: nat, j: nat)
    requires k < |placed| && j < 3
    ensures AllFaceAnchors(placed)[3 * k + j] == FaceAnchors(placed[k])[j]
  {
    if k > 0 {
      AllFaceAnchorsAt(placed[1..], k - 1, j);
      assert AllFaceAnchors(placed)[3 * k + j] == AllFaceAnchors(placed[1..])[3 * (k - 1) + j];
    }
  }

  /** Boxes at non-negative coordinates with non-negative extents give anchors at non-negative coordinates. */
  lemma {:induction false} AllFaceAnchorsNonNegative(placed: seq<Placed>)
    requires forall k :: 0 <= k < |placed| ==> NonNegativePlacement(placed[k])
    ensures forall i :: 0 <= i < |AllFaceAnchors(placed)| ==> NonNegativePoint(AllFaceAnchors(placed)[i])
  {
    if |placed| > 0 {
      AllFaceAnchorsNonNegative(placed[1..]);
      var r := AllFaceAnchors(placed);
      forall i | 0 <= i < |r|
        ensures NonNegativePoint(r[i])
      {
        if i >= 3 {
          assert r[i] == AllFaceAnchors(placed[1..])[i - 3];
        } else {
          assert NonNegativePlacement(placed[0]);
        }
      }
    }
  }

  /** The positions before sorting: the origin, then three per placed box in placement order. */
  function RawCandidates(placed: seq<Placed>): seq<Point> {
    [Point(0.0, 0.0, 0.0)] + AllFaceAnchors(placed)
  }

  /** Placed boxes lie at non-negative coordinates and have non-negative extents. */
  predicate NonNegativePlacement(p: Placed) {
    p.x >= 0.0 && p.y >= 0.0 && p.z >= 0.0 && p.length >= 0.0 && p.width >= 0.0 && p.height >= 0.0
  }

  predicate NonNegativePoint(p: Point) {
    p.x >= 0.0 && p.y >= 0.0 && p.z >= 0.0
  }

  /** With non-negative placements, every raw candidate has non-negative coordinates. */
  lemma RawCandidatesNonNegative(placed: seq<Placed>)
    requires forall k :: 0 <= k < |placed| ==> NonNegativePlacement(placed[k])
    ensures forall p :: p in multiset(RawCandidates(placed)) ==> NonNegativePoint(p)
  {
    var raw := RawCandidates(placed);
    forall p | p in multiset(raw)
      ensures NonNegativePoint(p)
    {
      var j :| 0 <= j < |raw| && raw[j] == p;
      AllFaceAnchorsNonNegative(placed);
      if j > 0 {
        assert raw[j] == AllFaceAnchors(placed)[j - 1];
      }
    }
  }

  /** `generateCandidatePositions`: the raw candidates in bottom-left-front order. */
  function CandidatePositions(placed: seq<Placed>): (r: seq<Point>)
    ensures |r| == 1 + 3 * |placed|
    ensures multiset(r) == multiset(RawCandidates(placed))
    ensures Point(0.0, 0.0, 0.0) in r
    ensures forall i, j :: 0 <= i < j < |r| ==> PointLe(r[i], r[j])
  {
    var raw := RawCandidates(placed);
    PointLeTotalPreorder();
    var r := SortBy(raw, PointLe);
    assert raw[0] in multiset(r);
    r
  }

  /** With non-negative placements, every candidate position has non-negative coordinates. */
  lemma CandidatesNonNegative(placed: seq<Placed>)
    requires forall k :: 0 <= k < |placed| ==> NonNegativePlacement(placed[k])
    ensures forall i :: 0 <= i < |CandidatePositions(placed)| ==> NonNegativePoint(CandidatePositions(placed)[i])
  {
    var r := CandidatePositions(placed);
    RawCandidatesNonNegative(placed);
    assert forall i :: 0 <= i < |r| ==> r[i] in multiset(r);
  }

  // ---------------------------------------------------------------------------
  // findBestPosition

  /** The inner loop: the first rotation from index `j` on that fits at `pos`. */
  function FirstRotation(pk: Packer, pos: Point, rs: seq<Rotation>, j: nat): (r: Option<nat>)
    requires j <= |rs|
    decreases |rs| - j
    ensures r.Some? ==> j <= r.value < |rs| && CanFit(pk, pos, rs[r.value])
    ensures r.Some? ==> forall k :: j <= k < r.value ==> !CanFit(pk, pos, rs[k])
    ensures r.None? ==> forall k :: j <= k < |rs| ==> !CanFit(pk, pos, rs[k])
  {
    if j == |rs| then None
    else if CanFit(pk, pos, rs[j]) then Some(j)
    else FirstRotation(pk, pos, rs, j + 1)
  }

  /** The outer loop: the first position from index `i` on at which some rotation fits. */
  function FirstFitFrom(pk: Packer, ps: seq<Point>, rs: seq<Rotation>, i: nat): (r: Option<(nat, nat)>)
    requires i <= |ps|
    decreases |ps| - i
    ensures r.Some? ==> i <= r.value.0 < |ps| && r.value.1 < |rs| && CanFit(pk, ps[r.value.0], rs[r.value.1])
    ensures r.Some? ==> forall a, k :: i <= a < r.value.0 && 0 <= k < |rs| ==> !CanFit(pk, ps[a], rs[k])
    ensures r.Some? ==> forall k :: 0 <= k < r.value.1 ==> !CanFit(pk, ps[r.value.0], rs[k])
    ensures r.None? ==> forall a, k :: i <= a < |ps| && 0 <= k < |rs| ==> !CanFit(pk, ps[a], rs[k])
  {
    if i == |ps| then None
    else match FirstRotation(pk, ps[i], rs, 0)
      case Some(k) => Some((i, k))
      case None => FirstFitFrom(pk, ps, rs, i + 1)
  }

  /** `findBestPosition`: the first (candidate, rotation) pair in loop order at which the piece fits. */
  function FindBestPosition(pk: Packer, d: Dims): (r: Option<Fit>)
    ensures r.Some? ==> r.value.pos in CandidatePositions(pk.placed)
    ensures r.Some? ==> r.value.rotation in PackerRotations(d)
    ensures r.Some? ==> CanFit(pk, r.value.pos, r.value.rotation)
    ensures r.None? ==> forall p, rot :: p in CandidatePositions(pk.placed) && rot in PackerRotations(d) ==>
                          !CanFit(pk, p, rot)
  {
    var ps := CandidatePositions(pk.placed);
    var rs := PackerRotations(d);
    match FirstFitFrom(pk, ps, rs, 0)
    case Some((a, k)) => Some(Fit(ps[a], rs[k]))
    case None => None
  }

  /** A returned fit is the first one in loop order: every earlier pair fails `canFit`. */
  lemma FindBestPositionIsFirst(pk: Packer, d: Dims) returns (a: nat, k: nat)
    requires FindBestPosition(pk, d).Some?
    ensures a < |CandidatePositions(pk.placed)| && k < |PackerRotations(d)|
    ensures FindBestPosition(pk, d).value == Fit(CandidatePositions(pk.placed)[a], PackerRotations(d)[k])
    ensures forall a', k' :: 0 <= a' < a && 0 <= k' < |PackerRotations(d)| ==>
              !CanFit(pk, CandidatePositions(pk.placed)[a'], PackerRotations(d)[k'])
    ensures forall k' :: 0 <= k' < k ==> !CanFit(pk, CandidatePositions(pk.placed)[a], PackerRotations(d)[k'])
  {
    var ps := CandidatePositions(pk.placed);
    var rs := PackerRotations(d);
    var r := FirstFitFrom(pk, ps, rs, 0);
    a, k := r.value.0, r.value.1;
  }

  // ---------------------------------------------------------------------------
  // addPiece

  function PlacementOf(pieceId: string, pos: Point, rot: Rotation): Placed {
    Placed(pieceId, pos.x, pos.y, pos.z, rot.dims.length, rot.dims.width, rot.dims.height, rot.rotationId > 0)
  }

  /** `addPiece`: returns whether the piece was added, and the packer afterwards. */
  function AddPiece(pk: Packer, pieceId: string, pos: Point, rot: Rotation): (r: (bool, Packer))
    ensures r.0 <==> CanFit(pk, pos, rot)
    ensures !r.0 ==> r.1 == pk
    ensures r.0 ==> r.1.placed == pk.placed + [PlacementOf(pieceId, pos, rot)]
    ensures r.1.stockLength == pk.stockLength && r.1.stockWidth == pk.stockWidth && r.1.stockHeight == pk.stockHeight
  {
    if !CanFit(pk, pos, rot) then (false, pk)
    else (true, pk.(placed := pk.placed + [PlacementOf(pieceId, pos, rot)]))
  }

  /** Every placed box lies inside the stock. */
  predicate InsideStock(pk: Packer, p: Placed) {
    NonNegativePlacement(p) &&
    p.x + p.length <= pk.stockLength && p.y + p.width <= pk.stockWidth && p.z + p.height <= pk.stockHeight
  }

  /** The layout invariant: every box inside the stock, no two boxes overlapping. */
  predicate ValidPacker(pk: Packer) {
    && (forall i :: 0 <= i < |pk.placed| ==> InsideStock(pk, pk.placed[i]))
    && (forall i, j :: 0 <= i < j < |pk.placed| ==> !Overlapping(PlacedBox(pk.placed[i]), PlacedBox(pk.placed[j])))
  }

  predicate NonNegativeDims(d: Dims) {
    d.length >= 0.0 && d.width >= 0.0 && d.height >= 0.0
  }

  lemma AddPiecePreservesValid(pk: Packer, pieceId: string, pos: Point, rot: Rotation)
    requires ValidPacker(pk)
    requires NonNegativePoint(pos) && NonNegativeDims(rot.dims)
    ensures ValidPacker(AddPiece(pk, pieceId, pos, rot).1)
  {
    var r := AddPiece(pk, pieceId, pos, rot);
    if r.0 {
      var q := r.1;
      var n := |pk.placed|;
      assert q.placed[n] == PlacementOf(pieceId, pos, rot);
      assert PlacedBox(q.placed[n]) == RotatedBox(pos, rot);
      forall i, j | 0 <= i < j < |q.placed|
        ensures !Overlapping(PlacedBox(q.placed[i]), PlacedBox(q.placed[j]))
      {
        if j == n {
          assert !Overlapping(RotatedBox(pos, rot), PlacedBox(pk.placed[i]));
          OverlapSymmetric(RotatedBox(pos, rot), PlacedBox(pk.placed[i]));
        } else {
          assert q.placed[i] == pk.placed[i] && q.placed[j] == pk.placed[j];
        }
      }
    }
  }

  /** Every orientation `getRotations` offers has the non-negative extents of the piece. */
  lemma RotationsNonNegative(d: Dims, rot: Rotation)
    requires NonNegativeDims(d) && rot in PackerRotations(d)
    ensures NonNegativeDims(rot.dims)
  {
    var rs := PackerRotations(d);
    var a :| 0 <= a < |rs| && rs[a] == rot;
    assert IsPermutation(rs[a].dims, d);
  }

  /** Placing a piece where `findBestPosition` says keeps the layout valid. */
  lemma PlaceBestPreservesValid(pk: Packer, pieceId: string, d: Dims)
    requires ValidPacker(pk) && NonNegativeDims(d)
    requires FindBestPosition(pk, d).Some?
    ensures var f := FindBestPosition(pk, d).value;
            AddPiece(pk, pieceId, f.pos, f.rotation).0 &&
            ValidPacker(AddPiece(pk, pieceId, f.pos, f.rotation).1)
  {
    var f := FindBestPosition(pk, d).value;
    var ps := CandidatePositions(pk.placed);
    var a :| 0 <= a < |ps| && ps[a] == f.pos;
    CandidatesNonNegative(pk.placed);
    RotationsNonNegative(d, f.rotation);
    AddPiecePreservesValid(pk, pieceId, f.pos, f.rotation);
  }

  // ---------------------------------------------------------------------------
  // getUtilization

  function PlacedVolume(p: Placed): real {
    p.length * p.width * p.height
  }

  function UsedVolume(placed: seq<Placed>): (v: real)
    ensures (forall i :: 0 <= i < |placed| ==> NonNegativePlacement(placed[i])) ==> v >= 0.0
  {
    if |placed| == 0 then 0.0 else PlacedVolume(placed[0]) + UsedVolume(placed[1..])
  }

  lemma {:induction false} UsedVolumeAppend(placed: seq<Placed>, p: Placed)
    ensures UsedVolume(placed + [p]) == UsedVolume(placed) + PlacedVolume(p)
  {
    if |placed| > 0 {
      assert (placed + [p])[1..] == placed[1..] + [p];
      UsedVolumeAppend(placed[1..], p);
    }
  }

  function PackerVolume(pk: Packer): real {
    pk.stockLength * pk.stockWidth * pk.stockHeight
  }

  /** `getUtilization`: the placed volume as a percentage of the stock volume. */
  function Utilization(pk: Packer): (u: real)
    requires PackerVolume(pk) > 0.0
    ensures u * PackerVolume(pk) == 100.0 * UsedVolume(pk.placed)
    ensures pk.placed == [] ==> u == 0.0
    ensures ValidPacker(pk) ==> u >= 0.0
  {
    (UsedVolume(pk.placed) / PackerVolume(pk)) * 100.0
  }

  // ---------------------------------------------------------------------------
  // OptimizationEngine.optimize

  /** The comparator `volumeB - volumeA`: larger volume first. */
  predicate VolumeDescending(a: Piece, b: Piece) {
    Volume(a) >= Volume(b)
  }

  lemma VolumeDescendingTotalPreorder()
    ensures TotalPreorder(VolumeDescending)
  {
  }

  /** The expanded pieces sorted by volume, largest first; ties keep their input order. */
  function SortedUnits(pieces: seq<Piece>): (r: seq<Piece>)
    ensures multiset(r) == multiset(ExpandPieces(pieces))
    ensures |r| == SumQuantities(pieces)
    ensures forall i, j :: 0 <= i < j < |r| ==> Volume(r[i]) >= Volume(r[j])
  {
    VolumeDescendingTotalPreorder();
    var r := SortBy(ExpandPieces(pieces), VolumeDescending);
    assert SortedBy(r, VolumeDescending);
    r
  }

  function PlacedIds(placed: seq<Placed>): (r: seq<string>)
    ensures |r| == |placed| && forall i :: 0 <= i < |placed| ==> r[i] == placed[i].pieceId
  {
    seq(|placed|, i requires 0 <= i < |placed| => placed[i].pieceId)
  }

  predicate AllNonNegativeDims(ps: seq<Piece>) {
    forall i :: 0 <= i < |ps| ==> NonNegativeDims(PieceDims(ps[i]))
  }

  /** Splicing piece `i` out and recording it as placed keeps the combined id multiset. */
  lemma SpliceKeepsIds(placed: seq<Placed>, remaining: seq<Piece>, i: nat, p: Placed)
    requires i < |remaining| && p.pieceId == remaining[i].id
    ensures multiset(PlacedIds(placed + [p])) + multiset(Ids(remaining[..i] + remaining[i + 1..])) ==
            multiset(PlacedIds(placed)) + multiset(Ids(remaining))
  {
    var rest := remaining[..i] + remaining[i + 1..];
    RemoveAt(Ids(remaining), i);
    assert Ids(rest) == Ids(remaining)[..i] + Ids(remaining)[i + 1..];
    assert PlacedIds(placed + [p]) == PlacedIds(placed) + [p.pieceId];
  }

  lemma SpliceKeepsNonNegative(remaining: seq<Piece>, i: nat)
    requires i < |remaining| && AllNonNegativeDims(remaining)
    ensures AllNonNegativeDims(remaining[..i] + remaining[i + 1..])
  {
    var rest := remaining[..i] + remaining[i + 1..];
    forall k | 0 <= k < |rest|
      ensures NonNegativeDims(PieceDims(rest[k]))
    {
      if k < i { assert rest[k] == remaining[k]; } else { assert rest[k] == remaining[k + 1]; }
    }
  }

  /**
    The inner `while (i < remainingPieces.length)` loop for one stock block,
    from index `i` on.
   */
  function PackStock(pk: Packer, remaining: seq<Piece>, i: nat): (r: (Packer, seq<Piece>))
    requires i <= |remaining|
    decreases |remaining| - i, 1
    ensures pk.placed <= r.0.placed
    ensures r.0.stockLength == pk.stockLength && r.0.stockWidth == pk.stockWidth && r.0.stockHeight == pk.stockHeight
    ensures |r.0.placed| + |r.1| == |pk.placed| + |remaining|
    ensures remaining[..i] <= r.1
  {
    if i == |remaining| then (pk, remaining) else PackPiece(pk, remaining, i)
  }

  /** One iteration: a piece that fits is placed and spliced out (the index stays), one that does not is skipped. */
  function PackPiece(pk: Packer, remaining: seq<Piece>, i: nat): (r: (Packer, seq<Piece>))
    requires i < |remaining|
    decreases |remaining| - i, 0
    ensures pk.placed <= r.0.placed
    ensures r.0.stockLength == pk.stockLength && r.0.stockWidth == pk.stockWidth && r.0.stockHeight == pk.stockHeight
    ensures |r.0.placed| + |r.1| == |pk.placed| + |remaining|
    ensures remaining[..i] <= r.1
  {
    var piece := remaining[i];
    match FindBestPosition(pk, PieceDims(piece))
    case Some(f) =>
      var pk' := AddPiece(pk, piece.id, f.pos, f.rotation).1;
      assert pk'.placed == pk.placed + [PlacementOf(piece.id, f.pos, f.rotation)];
      assert (remaining[..i] + remaining[i + 1..])[..i] == remaining[..i];
      PackStock(pk', remaining[..i] + remaining[i + 1..], i)
    case None =>
      var r := PackStock(pk, remaining, i + 1);
      assert remaining[..i] <= remaining[..i + 1];
      r
  }

  /** Each piece of the inner loop ends up either placed once or still remaining, never both. */
  lemma {:induction false} PackStockKeepsIds(pk: Packer, remaining: seq<Piece>, i: nat)
    requires i <= |remaining|
    decreases |remaining| - i
    ensures var r := PackStock(pk, remaining, i);
            multiset(PlacedIds(r.0.placed)) + multiset(Ids(r.1)) == multiset(PlacedIds(pk.placed)) + multiset(Ids(remaining))
  {
    if i < |remaining| {
      assert PackStock(pk, remaining, i) == PackPiece(pk, remaining, i);
      var piece := remaining[i];
      match FindBestPosition(pk, PieceDims(piece))
      case Some(f) =>
        var pk' := AddPiece(pk, piece.id, f.pos, f.rotation).1;
        var rest := remaining[..i] + remaining[i + 1..];
        assert PackPiece(pk, remaining, i) == PackStock(pk', rest, i);
        assert pk'.placed == pk.placed + [PlacementOf(piece.id, f.pos, f.rotation)];
        SpliceKeepsIds(pk.placed, remaining, i, PlacementOf(piece.id, f.pos, f.rotation));
        PackStockKeepsIds(pk', rest, i);
      case None =>
        assert PackPiece(pk, remaining, i) == PackStock(pk, remaining, i + 1);
        PackStockKeepsIds(pk, remaining, i + 1);
    }
  }

  /** The pieces left after a block are some of the pieces it started with. */
  lemma {:induction false} PackStockLeavesSubset(pk: Packer, remaining: seq<Piece>, i: nat)
    requires i <= |remaining|
    decreases |remaining| - i
    ensures multiset(PackStock(pk, remaining, i).1) <= multiset(remaining)
  {
    if i < |remaining| {
      assert PackStock(pk, remaining, i) == PackPiece(pk, remaining, i);
      var piece := remaining[i];
      match FindBestPosition(pk, PieceDims(piece))
      case Some(f) =>
        RemoveAt(remaining, i);
        PackStockLeavesSubset(AddPiece(pk, piece.id, f.pos, f.rotation).1, remaining[..i] + remaining[i + 1..], i);
      case None =>
        PackStockLeavesSubset(pk, remaining, i + 1);
    }
  }

  /** The inner loop keeps the layout invariant. */
  lemma {:induction false} PackStockKeepsValid(pk: Packer, remaining: seq<Piece>, i: nat)
    requires i <= |remaining|
    requires ValidPacker(pk) && AllNonNegativeDims(remaining)
    decreases |remaining| - i
    ensures ValidPacker(PackStock(pk, remaining, i).0) && AllNonNegativeDims(PackStock(pk, remaining, i).1)
  {
    if i < |remaining| {
      assert PackStock(pk, remaining, i) == PackPiece(pk, remaining, i);
      var piece := remaining[i];
      match FindBestPosition(pk, PieceDims(piece))
      case Some(f) =>
        PlaceBestPreservesValid(pk, piece.id, PieceDims(piece));
        SpliceKeepsNonNegative(remaining, i);
        PackStockKeepsValid(AddPiece(pk, piece.id, f.pos, f.rotation).1, remaining[..i] + remaining[i + 1..], i);
      case None =>
        PackStockKeepsValid(pk, remaining, i + 1);
    }
  }

  /** One layout of the result, `{ stockId, pieces, utilization }`. */
  datatype Layout = Layout(stockId: string, pieces: seq<Placed>, utilization: real)

  datatype Result = Result(layouts: seq<Layout>, totalWaste: real, totalCost: real, efficiency: real)

  /**
    The state of the outer loop: layouts so far, the running totals, the
    pieces still unplaced, and (for the proofs) the indices of the stocks used.
   */
  datatype Run = Run(layouts: seq<Layout>, usedVolume: real, stockVolume: real, cost: real,
                     remaining: seq<Piece>, used: seq<nat>)

  predicate LayoutFitsStock(l: Layout, s: Stock) {
    l.stockId == s.id && |l.pieces| > 0 && ValidPacker(Packer(s.length, s.width, s.height, l.pieces))
  }

  function SumPrices(stocks: seq<Stock>, used: seq<nat>): real
    requires forall k :: 0 <= k < |used| ==> used[k] < |stocks|
  {
    if |used| == 0 then 0.0 else SumPrices(stocks, used[..|used| - 1]) + PriceOf(stocks[used[|used| - 1]])
  }

  function SumStockVolumes(stocks: seq<Stock>, used: seq<nat>): real
    requires forall k :: 0 <= k < |used| ==> used[k] < |stocks|
  {
    if |used| == 0 then 0.0 else SumStockVolumes(stocks, used[..|used| - 1]) + StockVolume(stocks[used[|used| - 1]])
  }

  function AllPlacedIds(layouts: seq<Layout>): seq<string> {
    if |layouts| == 0 then [] else AllPlacedIds(layouts[..|layouts| - 1]) + PlacedIds(layouts[|layouts| - 1].pieces)
  }

  function AllUsedVolume(layouts: seq<Layout>): real {
    if |layouts| == 0 then 0.0 else AllUsedVolume(layouts[..|layouts| - 1]) + UsedVolume(layouts[|layouts| - 1].pieces)
  }

  /** The outer loop's invariant relating the run to the stocks it visited. */
  predicate RunInvariant(stocks: seq<Stock>, k: nat, run: Run) {
    && |run.layouts| == |run.used|
    && (forall a :: 0 <= a < |run.used| ==> run.used[a] < k && run.used[a] < |stocks|)
    && (forall a, b :: 0 <= a < b < |run.used| ==> run.used[a] < run.used[b])
    && (forall a :: 0 <= a < |run.used| ==> run.layouts[a].stockId == stocks[run.used[a]].id && |run.layouts[a].pieces| > 0)
    && run.cost == SumPrices(stocks, run.used)
    && run.stockVolume == SumStockVolumes(stocks, run.used)
    && run.usedVolume == AllUsedVolume(run.layouts)
  }

  /** Every layout so far is valid for its stock, and the pieces left have non-negative extents. */
  predicate RunValid(stocks: seq<Stock>, run: Run)
    requires forall a :: 0 <= a < |run.used| ==> run.used[a] < |stocks|
    requires |run.layouts| == |run.used|
  {
    && (forall a :: 0 <= a < |run.used| ==> LayoutFitsStock(run.layouts[a], stocks[run.used[a]]))
    && AllNonNegativeDims(run.remaining)
  }

  /** The used volume recovered from the utilisation percentage, as `optimize` accumulates it. */
  lemma AllPlacedIdsAppend(layouts: seq<Layout>, l: Layout)
    ensures AllPlacedIds(layouts + [l]) == AllPlacedIds(layouts) + PlacedIds(l.pieces)
  {
    assert (layouts + [l])[..|layouts|] == layouts;
  }

  /** Moving a block's placed pieces from the remaining list into a new layout keeps the combined ids. */
  lemma RecordKeepsIds(layouts: seq<Layout>, l: Layout, remaining: seq<Piece>, rest: seq<Piece>)
    requires multiset(PlacedIds(l.pieces)) + multiset(Ids(rest)) == multiset(Ids(remaining))
    requires |l.pieces| + |rest| == |remaining|
    ensures multiset(AllPlacedIds(layouts + [l])) + multiset(Ids(rest)) == multiset(AllPlacedIds(layouts)) + multiset(Ids(remaining))
    ensures |AllPlacedIds(layouts + [l])| + |rest| == |AllPlacedIds(layouts)| + |remaining|
  {
    AllPlacedIdsAppend(layouts, l);
  }

  /** Recording a valid layout for block `k` keeps every recorded layout valid. */
  lemma RecordKeepsValid(stocks: seq<Stock>, k: nat, run: Run, l: Layout, uv: real, sv: real, c: real, rest: seq<Piece>)
    requires k < |stocks| && RunInvariant(stocks, k, run) && RunValid(stocks, run)
    requires LayoutFitsStock(l, stocks[k]) && AllNonNegativeDims(rest)
    ensures RunValid(stocks, Run(run.layouts + [l], uv, sv, c, rest, run.used + [k]))
  {
    var next := Run(run.layouts + [l], uv, sv, c, rest, run.used + [k]);
    forall a | 0 <= a < |next.used|
      ensures LayoutFitsStock(next.layouts[a], stocks[next.used[a]])
    {
      if a < |run.used| {
        assert next.layouts[a] == run.layouts[a] && next.used[a] == run.used[a];
      }
    }
  }

  /** Recording a used stock block keeps the outer loop's invariant. */
  lemma RecordKeepsInvariant(stocks: seq<Stock>, k: nat, run: Run, l: Layout, uv: real, rem: seq<Piece>)
    requires k < |stocks| && RunInvariant(stocks, k, run)
    requires l.stockId == stocks[k].id && |l.pieces| > 0 && uv == UsedVolume(l.pieces)
    ensures RunInvariant(stocks, k + 1, Run(run.layouts + [l], run.usedVolume + uv, run.stockVolume + StockVolume(stocks[k]),
                                            run.cost + PriceOf(stocks[k]), rem, run.used + [k]))
  {
    var used := run.used + [k];
    assert used[..|used| - 1] == run.used;
    assert (run.layouts + [l])[..|run.layouts|] == run.layouts;
  }

  /** A fresh block packed from non-negative pieces is a valid layout, and what remains stays non-negative. */
  lemma FreshBlockValid(stock: Stock, remaining: seq<Piece>)
    requires AllNonNegativeDims(remaining)
    ensures var packed := PackStock(NewPacker(stock), remaining, 0);
            ValidPacker(Packer(stock.length, stock.width, stock.height, packed.0.placed)) && AllNonNegativeDims(packed.1)
  {
    var packed := PackStock(NewPacker(stock), remaining, 0);
    assert ValidPacker(NewPacker(stock));
    PackStockKeepsValid(NewPacker(stock), remaining, 0);
    assert packed.0 == Packer(stock.length, stock.width, stock.height, packed.0.placed);
  }

  /** The layout of a packed block, and the used volume `optimize` recovers from its utilisation. */
  method BlockLayout(stock: Stock, placed: seq<Placed>) returns (l: Layout, uv: real)
    requires PositiveStock(stock)
    ensures l.stockId == stock.id && l.pieces == placed
    ensures l.utilization * StockVolume(stock) == 100.0 * UsedVolume(placed)
    ensures uv == StockVolume(stock) * l.utilization / 100.0 && uv == UsedVolume(placed)
  {
    PositiveStockVolume(stock);
    var u := Utilization(Packer(stock.length, stock.width, stock.height, placed));
    BlockUtilization(stock, placed);
    l := Layout(stock.id, placed, u);
    uv := StockVolume(stock) * u / 100.0;
  }

  /** A block's utilisation times its volume gives back the placed volume. */
  lemma BlockUtilization(stock: Stock, placed: seq<Placed>)
    requires StockVolume(stock) > 0.0
    ensures var u := Utilization(Packer(stock.length, stock.width, stock.height, placed));
            u * StockVolume(stock) == 100.0 * UsedVolume(placed) && StockVolume(stock) * u / 100.0 == UsedVolume(placed)
  {
    var pk := Packer(stock.length, stock.width, stock.height, placed);
    assert PackerVolume(pk) == StockVolume(stock);
    PercentBack(StockVolume(stock), Utilization(pk), UsedVolume(placed));
  }

  lemma PercentBack(whole: real, percent: real, part: real)
    requires percent * whole == 100.0 * part
    ensures whole * percent / 100.0 == part
  {
  }

  /** Records stock block `k` with its placed boxes: the layout, its used volume, the block's volume and price. */
  method RecordBlock(stocks: seq<Stock>, k: nat, run: Run, placed: seq<Placed>, rest: seq<Piece>) returns (next: Run)
    requires k < |stocks| && AllPositiveStocks(stocks)
    requires RunInvariant(stocks, k, run)
    requires |placed| > 0 && |placed| + |rest| == |run.remaining|
    requires multiset(PlacedIds(placed)) + multiset(Ids(rest)) == multiset(Ids(run.remaining))
    requires RunValid(stocks, run) ==>
               ValidPacker(Packer(stocks[k].length, stocks[k].width, stocks[k].height, placed)) && AllNonNegativeDims(rest)
    ensures RunInvariant(stocks, k + 1, next)
    ensures |next.layouts| == |run.layouts| + 1 && next.layouts == run.layouts + [next.layouts[|run.layouts|]]
    ensures next.layouts[|run.layouts|].stockId == stocks[k].id && next.layouts[|run.layouts|].pieces == placed
    ensures next.remaining == rest
    ensures RunValid(stocks, run) ==> RunValid(stocks, next)
  {
    var stock := stocks[k];
    var l, uv := BlockLayout(stock, placed);
    var sv := StockVolume(stock);
    RecordKeepsInvariant(stocks, k, run, l, uv, rest);
    if RunValid(stocks, run) {
      RecordKeepsValid(stocks, k, run, l, run.usedVolume + uv, run.stockVolume + sv, run.cost + PriceOf(stock), rest);
    }
    next := Run(run.layouts + [l], run.usedVolume + uv, run.stockVolume + sv, run.cost + PriceOf(stock), rest, run.used + [k]);
  }

  /**
    One iteration of the outer loop: pack stock block `k` afresh and, when
    `placedInThisStock > 0`, record its layout, volume and price.
   */
  method TryStock(stocks: seq<Stock>, k: nat, run: Run) returns (next: Run)
    requires k < |stocks| && AllPositiveStocks(stocks)
    requires RunInvariant(stocks, k, run)
    ensures RunInvariant(stocks, k + 1, next)
    ensures |run.layouts| <= |next.layouts| <= |run.layouts| + 1
    ensures run.layouts <= next.layouts
    ensures |AllPlacedIds(next.layouts)| + |next.remaining| == |AllPlacedIds(run.layouts)| + |run.remaining|
    ensures multiset(AllPlacedIds(next.layouts)) + multiset(Ids(next.remaining)) ==
            multiset(AllPlacedIds(run.layouts)) + multiset(Ids(run.remaining))
    ensures multiset(next.remaining) <= multiset(run.remaining)
    ensures RunValid(stocks, run) ==> RunValid(stocks, next)
  {
    var stock := stocks[k];
    var pk0 := NewPacker(stock);
    var packed := PackStock(pk0, run.remaining, 0);
    PackStockKeepsIds(pk0, run.remaining, 0);
    PackStockLeavesSubset(pk0, run.remaining, 0);
    assert PlacedIds(pk0.placed) == [];
    assert multiset(PlacedIds(packed.0.placed)) + multiset(Ids(packed.1)) == multiset(Ids(run.remaining));
    if RunValid(stocks, run) {
      FreshBlockValid(stock, run.remaining);
    }
    if |packed.0.placed| > 0 {
      next := RecordBlock(stocks, k, run, packed.0.placed, packed.1);
      RecordKeepsIds(run.layouts, next.layouts[|run.layouts|], run.remaining, packed.1);
    } else {
      assert PlacedIds(packed.0.placed) == [];
      assert multiset(Ids(packed.1)) == multiset(Ids(run.remaining));
      next := run.(remaining := packed.1);
    }
  }

  function InitialRun(pieces: seq<Piece>): (r: Run)
    ensures r.layouts == [] && r.used == [] && r.remaining == SortedUnits(pieces)
  {
    Run([], 0.0, 0.0, 0.0, SortedUnits(pieces), [])
  }

  /** `efficiency` and `totalWaste` from the running totals. */
  function Finish(run: Run): (r: Result)
    ensures r.totalWaste == 100.0 - r.efficiency
    ensures run.stockVolume <= 0.0 ==> r.efficiency == 0.0
    ensures run.stockVolume > 0.0 ==> r.efficiency * run.stockVolume == 100.0 * run.usedVolume
    ensures r.layouts == run.layouts && r.totalCost == run.cost
  {
    var efficiency := if run.stockVolume > 0.0 then (run.usedVolume / run.stockVolume) * 100.0 else 0.0;
    Result(run.layouts, 100.0 - efficiency, run.cost, efficiency)
  }

  lemma InitialRunFacts(pieces: seq<Piece>)
    ensures var run := InitialRun(pieces);
            && multiset(Ids(run.remaining)) == multiset(Ids(ExpandPieces(pieces)))
            && (AllPositivePieces(pieces) ==> AllNonNegativeDims(run.remaining))
  {
    var run := InitialRun(pieces);
    if AllPositivePieces(pieces) {
      forall j | 0 <= j < |run.remaining|
        ensures NonNegativeDims(PieceDims(run.remaining[j]))
      {
        assert run.remaining[j] in multiset(ExpandPieces(pieces));
        var e :| 0 <= e < |ExpandPieces(pieces)| && ExpandPieces(pieces)[e] == run.remaining[j];
      }
    }
    IdsOfPermutation(run.remaining, ExpandPieces(pieces));
  }

  /**
    The whole run of `optimize` before the result is assembled: expand, sort
    by volume, then visit each stock entry once while pieces remain.
   */
  method OptimizeRun(pieces: seq<Piece>, stocks: seq<Stock>) returns (run: Run)
    requires AllPositiveStocks(stocks)
    ensures RunInvariant(stocks, |stocks|, run)
    ensures |run.layouts| <= |stocks|
    ensures |AllPlacedIds(run.layouts)| + |run.remaining| == SumQuantities(pieces)
    ensures multiset(AllPlacedIds(run.layouts)) + multiset(Ids(run.remaining)) == multiset(Ids(ExpandPieces(pieces)))
    ensures multiset(run.remaining) <= multiset(ExpandPieces(pieces))
    ensures AllPositivePieces(pieces) ==> RunValid(stocks, run)
  {
    run := InitialRun(pieces);
    InitialRunFacts(pieces);
    var k := 0;
    while |run.remaining| > 0 && k < |stocks|
      invariant k <= |stocks|
      invariant RunInvariant(stocks, k, run)
      invariant |run.layouts| <= k
      invariant multiset(AllPlacedIds(run.layouts)) + multiset(Ids(run.remaining)) == multiset(Ids(ExpandPieces(pieces)))
      invariant multiset(run.remaining) <= multiset(ExpandPieces(pieces))
      invariant AllPositivePieces(pieces) ==> RunValid(stocks, run)
      decreases |stocks| - k
    {
      run := TryStock(stocks, k, run);
      k := k + 1;
    }
    assert |multiset(AllPlacedIds(run.layouts)) + multiset(Ids(run.remaining))| == |Ids(ExpandPieces(pieces))|;
  }

  /**
    `OptimizationEngine.optimize` (the delay before it is not modelled). The
    final loop state `run` is returned too: its `used` list names the stock
    entry behind each layout, which the totals are stated against.
   */
  method Optimize(pieces: seq<Piece>, stocks: seq<Stock>) returns (r: Result, run: Run)
    requires AllPositiveStocks(stocks)
    ensures RunInvariant(stocks, |stocks|, run) && r.layouts == run.layouts
    ensures r.totalCost == SumPrices(stocks, run.used)
    ensures SumStockVolumes(stocks, run.used) > 0.0 ==>
              r.efficiency * SumStockVolumes(stocks, run.used) == 100.0 * AllUsedVolume(r.layouts)
    ensures SumStockVolumes(stocks, run.used) <= 0.0 ==> r.efficiency == 0.0
    ensures |r.layouts| <= |stocks|
    ensures r.totalWaste == 100.0 - r.efficiency
    ensures |r.layouts| == 0 ==> r.efficiency == 0.0 && r.totalCost == 0.0
    ensures forall a :: 0 <= a < |r.layouts| ==> |r.layouts[a].pieces| > 0
    ensures forall a :: 0 <= a < |r.layouts| ==> exists j :: 0 <= j < |stocks| && r.layouts[a].stockId == stocks[j].id
    ensures |AllPlacedIds(r.layouts)| <= SumQuantities(pieces)
    ensures multiset(AllPlacedIds(r.layouts)) <= multiset(Ids(ExpandPieces(pieces)))
    ensures AllPositivePieces(pieces) ==>
              forall a :: 0 <= a < |r.layouts| ==> exists j :: 0 <= j < |stocks| && LayoutFitsStock(r.layouts[a], stocks[j])
  {
    run := OptimizeRun(pieces, stocks);
    r := Finish(run);
  }
}
