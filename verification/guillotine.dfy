/**
  The guillotine shelf packer, `GuillotineCuttingEngine`. Each stock block is
  filled row by row with the two-dimensional footprints (length x width) of
  the pieces, largest area first; every piece sits on the block's floor
  (`z = 0`). The straight cut positions are collected on the way, and a cut
  plan with a time estimate of 15 seconds per cut is derived from them.
 */
module Guillotine {
  import opened Foam
  import opened Geometry
  import opened Sorting

  /** One of the two footprints `createGuillotineLayout` tries for a piece. */
  datatype Orientation = Orientation(width: real, height: real, rotated: bool)

  /** A piece placed on a block, in centimetres. */
  datatype GPlaced = GPlaced(pieceId: string, x: real, y: real, z: real, width: real, height: real, rotated: bool)

  /** The row cursor: `currentX`, `currentY` and `rowHeight`. */
  datatype Cursor = Cursor(x: real, y: real, rowHeight: real)

  /** A layout under construction: the placed pieces, the cut lists in discovery order, and the cursor. */
  datatype Sheet = Sheet(pieces: seq<GPlaced>, horizontalCuts: seq<real>, verticalCuts: seq<real>, cursor: Cursor)

  /** `GuillotineLayout`: the cut lists are sorted ascending. */
  datatype GLayout = GLayout(stockId: string, pieces: seq<GPlaced>, horizontalCuts: seq<real>,
                             verticalCuts: seq<real>, utilization: real)

  const EmptySheet: Sheet := Sheet([], [], [], Cursor(0.0, 0.0, 0.0))

  function Footprint(p: GPlaced): Rect {
    Rect(p.x, p.y, p.width, p.height)
  }

  /** The normal footprint first, then the one turned by 90 degrees. */
  function Orientations(p: Piece): seq<Orientation> {
    [Orientation(p.length, p.width, false), Orientation(p.width, p.length, true)]
  }

  predicate FitsAt(stock: Stock, c: Cursor, o: Orientation) {
    c.x + o.width <= stock.length && c.y + o.height <= stock.width
  }

  /** The first orientation that fits at the cursor. */
  function FirstOrientation(stock: Stock, c: Cursor, os: seq<Orientation>): (r: Option<Orientation>)
    ensures r.Some? ==> r.value in os && FitsAt(stock, c, r.value)
    ensures r.Some? && |os| > 0 && FitsAt(stock, c, os[0]) ==> r.value == os[0]
    ensures r.None? <==> forall k :: 0 <= k < |os| ==> !FitsAt(stock, c, os[k])
  {
    if |os| == 0 then None
    else if FitsAt(stock, c, os[0]) then Some(os[0])
    else FirstOrientation(stock, c, os[1..])
  }

  /** Records a cut position unless it reaches the block's edge or is already recorded. */
  function AddCut(cuts: seq<real>, pos: real, limit: real): (r: seq<real>)
    ensures cuts <= r && |r| <= |cuts| + 1
    ensures forall c :: c in r <==> c in cuts || (c == pos && pos < limit)
    ensures NoDuplicates(cuts) ==> NoDuplicates(r)
  {
    if pos < limit && pos !in cuts then cuts + [pos] else cuts
  }

  function RightEdge(p: GPlaced): real {
    p.x + p.width
  }

  function BottomEdge(p: GPlaced): real {
    p.y + p.height
  }

  /** Places the piece at the cursor in orientation `o` and advances the cursor along the row. */
  function PlaceAtCursor(stock: Stock, sh: Sheet, piece: Piece, o: Orientation): (r: Sheet)
    ensures r.pieces == sh.pieces + [GPlaced(piece.id, sh.cursor.x, sh.cursor.y, 0.0, o.width, o.height, o.rotated)]
    ensures r.cursor.x == sh.cursor.x + o.width && r.cursor.y == sh.cursor.y
    ensures r.cursor.rowHeight == MaxReal(sh.cursor.rowHeight, o.height)
    ensures r.cursor.rowHeight >= sh.cursor.rowHeight && r.cursor.rowHeight >= o.height
  {
    var c := sh.cursor;
    Sheet(sh.pieces + [GPlaced(piece.id, c.x, c.y, 0.0, o.width, o.height, o.rotated)],
          AddCut(sh.horizontalCuts, c.y + o.height, stock.width),
          AddCut(sh.verticalCuts, c.x + o.width, stock.length),
          Cursor(c.x + o.width, c.y, MaxReal(c.rowHeight, o.height)))
  }

  /** Starts a new row below the current one. */
  function NewRow(c: Cursor): (r: Cursor)
    ensures r.x == 0.0 && r.rowHeight == 0.0
    ensures r.y == c.y + c.rowHeight
  {
    Cursor(0.0, c.y + c.rowHeight, 0.0)
  }

  /** `q` is `p` placed in one of its two orientations; `rotated` tells which. */
  predicate PlacedFrom(q: GPlaced, p: Piece) {
    && q.pieceId == p.id
    && ((q.width == p.length && q.height == p.width && !q.rotated) ||
        (q.width == p.width && q.height == p.length && q.rotated))
  }

  /**
    One iteration of the piece loop: place at the cursor if some orientation
    fits; otherwise, if the row is not empty, start a new row and try again;
    `None` when the piece fits neither way.
   */
  function PlacePiece(stock: Stock, sh: Sheet, piece: Piece): (r: Option<Sheet>)
    ensures r.Some? ==> |r.value.pieces| == |sh.pieces| + 1 && sh.pieces <= r.value.pieces
    ensures r.Some? ==> PlacedFrom(r.value.pieces[|sh.pieces|], piece)
    ensures r.None? <==>
      (forall k :: 0 <= k < 2 ==> !FitsAt(stock, sh.cursor, Orientations(piece)[k])) &&
      (sh.cursor.rowHeight > 0.0 ==> forall k :: 0 <= k < 2 ==> !FitsAt(stock, NewRow(sh.cursor), Orientations(piece)[k]))
  {
    match FirstOrientation(stock, sh.cursor, Orientations(piece))
    case Some(o) => Some(PlaceAtCursor(stock, sh, piece, o))
    case None =>
      if sh.cursor.rowHeight > 0.0 then
        var sh' := sh.(cursor := NewRow(sh.cursor));
        match FirstOrientation(stock, sh'.cursor, Orientations(piece))
        case Some(o) => Some(PlaceAtCursor(stock, sh', piece, o))
        case None => None
      else None
  }

  /** The `for (const piece of sortedPieces)` loop from index `i`; also returns where it stopped. */
  function LayoutLoop(stock: Stock, sh: Sheet, pieces: seq<Piece>, i: nat): (r: (Sheet, nat))
    requires i <= |pieces|
    decreases |pieces| - i
    ensures i <= r.1 <= |pieces|
    ensures |r.0.pieces| == |sh.pieces| + (r.1 - i) && sh.pieces <= r.0.pieces
    ensures r.1 < |pieces| ==> PlacePiece(stock, r.0, pieces[r.1]).None?
  {
    if i == |pieces| then (sh, i)
    else match PlacePiece(stock, sh, pieces[i])
      case None => (sh, i)
      case Some(sh') => LayoutLoop(stock, sh', pieces, i + 1)
  }

  /** Placement `k` comes from piece `k`, for every placement made so far. */
  predicate PlacedPrefix(placed: seq<GPlaced>, pieces: seq<Piece>) {
    |placed| <= |pieces| && forall k :: 0 <= k < |placed| ==> PlacedFrom(placed[k], pieces[k])
  }

  lemma PlacedPrefixExtend(placed: seq<GPlaced>, placed': seq<GPlaced>, pieces: seq<Piece>)
    requires PlacedPrefix(placed, pieces) && |placed| < |pieces|
    requires placed <= placed' && |placed'| == |placed| + 1 && PlacedFrom(placed'[|placed|], pieces[|placed|])
    ensures PlacedPrefix(placed', pieces)
  {
    assert forall k :: 0 <= k < |placed| ==> placed'[k] == placed[k];
  }

  /** Started on a sheet that holds one placement per visited piece, the loop places the pieces it visits, in order. */
  lemma {:induction false} LayoutLoopPlacedFrom(stock: Stock, sh: Sheet, pieces: seq<Piece>, i: nat)
    requires i <= |pieces| && |sh.pieces| == i && PlacedPrefix(sh.pieces, pieces)
    decreases |pieces| - i
    ensures PlacedPrefix(LayoutLoop(stock, sh, pieces, i).0.pieces, pieces)
  {
    if i < |pieces| && PlacePiece(stock, sh, pieces[i]).Some? {
      var sh' := PlacePiece(stock, sh, pieces[i]).value;
      PlacedPrefixExtend(sh.pieces, sh'.pieces, pieces);
      LayoutLoopPlacedFrom(stock, sh', pieces, i + 1);
    }
  }

  lemma PrefixAt<T>(a: seq<T>, b: seq<T>, j: nat)
    requires a <= b && j < |a|
    ensures b[j] == a[j]
  {
  }

  // ---------------------------------------------------------------------------
  // The shelf invariant

  predicate InsideBlock(stock: Stock, p: GPlaced) {
    p.z == 0.0 && p.x >= 0.0 && p.y >= 0.0 && p.x + p.width <= stock.length && p.y + p.height <= stock.width
  }

  /** Each placed piece is in an earlier row (above the cursor's row) or to the left of the cursor in its row. */
  predicate BehindCursor(p: GPlaced, c: Cursor) {
    p.y + p.height <= c.y || (p.y == c.y && p.x + p.width <= c.x && p.height <= c.rowHeight)
  }

  predicate ValidSheet(stock: Stock, sh: Sheet) {
    && sh.cursor.x >= 0.0 && sh.cursor.y >= 0.0 && sh.cursor.rowHeight >= 0.0
    && (forall k :: 0 <= k < |sh.pieces| ==> InsideBlock(stock, sh.pieces[k]))
    && (forall k :: 0 <= k < |sh.pieces| ==> BehindCursor(sh.pieces[k], sh.cursor))
    && (forall a, b :: 0 <= a < b < |sh.pieces| ==> !RectsOverlap(Footprint(sh.pieces[a]), Footprint(sh.pieces[b])))
  }

  predicate NonNegativeOrientation(o: Orientation) {
    o.width >= 0.0 && o.height >= 0.0
  }

  predicate NonNegativeFootprint(p: Piece) {
    p.length >= 0.0 && p.width >= 0.0
  }

  predicate AllNonNegativeFootprints(ps: seq<Piece>) {
    forall k :: 0 <= k < |ps| ==> NonNegativeFootprint(ps[k])
  }

  lemma PlaceAtCursorKeepsValid(stock: Stock, sh: Sheet, piece: Piece, o: Orientation)
    requires ValidSheet(stock, sh) && NonNegativeOrientation(o) && FitsAt(stock, sh.cursor, o)
    ensures ValidSheet(stock, PlaceAtCursor(stock, sh, piece, o))
  {
    var r := PlaceAtCursor(stock, sh, piece, o);
    var n := |sh.pieces|;
    var q := r.pieces[n];
    forall a, b | 0 <= a < b < |r.pieces|
      ensures !RectsOverlap(Footprint(r.pieces[a]), Footprint(r.pieces[b]))
    {
      if b == n {
        assert r.pieces[a] == sh.pieces[a];
        assert BehindCursor(sh.pieces[a], sh.cursor);
      } else {
        assert r.pieces[a] == sh.pieces[a] && r.pieces[b] == sh.pieces[b];
      }
    }
    forall k | 0 <= k < |r.pieces|
      ensures BehindCursor(r.pieces[k], r.cursor) && InsideBlock(stock, r.pieces[k])
    {
      if k < n {
        assert r.pieces[k] == sh.pieces[k];
      }
    }
  }

  lemma NewRowKeepsValid(stock: Stock, sh: Sheet)
    requires ValidSheet(stock, sh)
    ensures ValidSheet(stock, sh.(cursor := NewRow(sh.cursor)))
  {
  }

  lemma OrientationsNonNegative(piece: Piece, o: Orientation)
    requires NonNegativeFootprint(piece) && o in Orientations(piece)
    ensures NonNegativeOrientation(o)
  {
  }

  lemma PlacePieceKeepsValid(stock: Stock, sh: Sheet, piece: Piece)
    requires ValidSheet(stock, sh) && NonNegativeFootprint(piece)
    requires PlacePiece(stock, sh, piece).Some?
    ensures ValidSheet(stock, PlacePiece(stock, sh, piece).value)
  {
    match FirstOrientation(stock, sh.cursor, Orientations(piece))
    case Some(o) =>
      OrientationsNonNegative(piece, o);
      PlaceAtCursorKeepsValid(stock, sh, piece, o);
    case None =>
      var sh' := sh.(cursor := NewRow(sh.cursor));
      NewRowKeepsValid(stock, sh);
      var o := FirstOrientation(stock, sh'.cursor, Orientations(piece)).value;
      OrientationsNonNegative(piece, o);
      PlaceAtCursorKeepsValid(stock, sh', piece, o);
  }

  /** Every placed footprint stays inside the block, on its floor, and no two overlap. */
  lemma {:induction false} LayoutLoopKeepsValid(stock: Stock, sh: Sheet, pieces: seq<Piece>, i: nat)
    requires i <= |pieces| && ValidSheet(stock, sh) && AllNonNegativeFootprints(pieces)
    decreases |pieces| - i
    ensures ValidSheet(stock, LayoutLoop(stock, sh, pieces, i).0)
  {
    if i < |pieces| && PlacePiece(stock, sh, pieces[i]).Some? {
      PlacePieceKeepsValid(stock, sh, pieces[i]);
      LayoutLoopKeepsValid(stock, PlacePiece(stock, sh, pieces[i]).value, pieces, i + 1);
    }
  }

  // ---------------------------------------------------------------------------
  // The row height

  /** The cursor's `rowHeight` is zero or the height of some piece placed in the cursor's row. */
  predicate RowHeightAttained(sh: Sheet) {
    || sh.cursor.rowHeight == 0.0
    || exists k :: 0 <= k < |sh.pieces| && sh.pieces[k].y == sh.cursor.y && sh.pieces[k].height == sh.cursor.rowHeight
  }

  lemma PlaceAtCursorKeepsRowHeight(stock: Stock, sh: Sheet, piece: Piece, o: Orientation)
    requires RowHeightAttained(sh)
    ensures RowHeightAttained(PlaceAtCursor(stock, sh, piece, o))
  {
    var r := PlaceAtCursor(stock, sh, piece, o);
    var n := |sh.pieces|;
    if o.height >= sh.cursor.rowHeight {
      assert r.pieces[n].y == r.cursor.y && r.pieces[n].height == r.cursor.rowHeight;
    } else if sh.cursor.rowHeight != 0.0 {
      var k :| 0 <= k < n && sh.pieces[k].y == sh.cursor.y && sh.pieces[k].height == sh.cursor.rowHeight;
      assert r.pieces[k] == sh.pieces[k];
    }
  }

  lemma PlacePieceKeepsRowHeight(stock: Stock, sh: Sheet, piece: Piece)
    requires RowHeightAttained(sh)
    requires PlacePiece(stock, sh, piece).Some?
    ensures RowHeightAttained(PlacePiece(stock, sh, piece).value)
  {
    match FirstOrientation(stock, sh.cursor, Orientations(piece))
    case Some(o) =>
      PlaceAtCursorKeepsRowHeight(stock, sh, piece, o);
    case None =>
      var sh' := sh.(cursor := NewRow(sh.cursor));
      var o := FirstOrientation(stock, sh'.cursor, Orientations(piece)).value;
      PlaceAtCursorKeepsRowHeight(stock, sh', piece, o);
  }

  lemma {:induction false} LayoutLoopKeepsRowHeight(stock: Stock, sh: Sheet, pieces: seq<Piece>, i: nat)
    requires i <= |pieces| && RowHeightAttained(sh)
    decreases |pieces| - i
    ensures RowHeightAttained(LayoutLoop(stock, sh, pieces, i).0)
  {
    if i < |pieces| && PlacePiece(stock, sh, pieces[i]).Some? {
      PlacePieceKeepsRowHeight(stock, sh, pieces[i]);
      LayoutLoopKeepsRowHeight(stock, PlacePiece(stock, sh, pieces[i]).value, pieces, i + 1);
    }
  }

  /**
    After any number of pieces laid onto a fresh block, `rowHeight` is the
    height of the tallest piece in the cursor's row, and zero when that row
    is still empty.
   */
  lemma RowHeightIsTallest(stock: Stock, pieces: seq<Piece>)
    requires AllNonNegativeFootprints(pieces)
    ensures var sh := LayoutLoop(stock, EmptySheet, pieces, 0).0;
      && (forall k :: 0 <= k < |sh.pieces| && sh.pieces[k].y == sh.cursor.y ==> sh.pieces[k].height <= sh.cursor.rowHeight)
      && (sh.cursor.rowHeight == 0.0 ||
          exists k :: 0 <= k < |sh.pieces| && sh.pieces[k].y == sh.cursor.y && sh.pieces[k].height == sh.cursor.rowHeight)
  {
    LayoutLoopKeepsValid(stock, EmptySheet, pieces, 0);
    LayoutLoopKeepsRowHeight(stock, EmptySheet, pieces, 0);
    var sh := LayoutLoop(stock, EmptySheet, pieces, 0).0;
    forall k | 0 <= k < |sh.pieces| && sh.pieces[k].y == sh.cursor.y
      ensures sh.pieces[k].height <= sh.cursor.rowHeight
    {
      assert BehindCursor(sh.pieces[k], sh.cursor);
    }
  }

  // ---------------------------------------------------------------------------
  // Cut lists

  /** Both cut lists are duplicate-free, and each lists exactly the piece edges that fall short of the block's edge. */
  ghost predicate CutsRecordEdges(stock: Stock, sh: Sheet) {
    && NoDuplicates(sh.verticalCuts) && NoDuplicates(sh.horizontalCuts)
    && (forall c :: c in sh.verticalCuts <==>
          c < stock.length && exists k :: 0 <= k < |sh.pieces| && RightEdge(sh.pieces[k]) == c)
    && (forall c :: c in sh.horizontalCuts <==>
          c < stock.width && exists k :: 0 <= k < |sh.pieces| && BottomEdge(sh.pieces[k]) == c)
  }

  lemma PlaceAtCursorKeepsCuts(stock: Stock, sh: Sheet, piece: Piece, o: Orientation)
    requires CutsRecordEdges(stock, sh)
    ensures CutsRecordEdges(stock, PlaceAtCursor(stock, sh, piece, o))
  {
    var r := PlaceAtCursor(stock, sh, piece, o);
    var n := |sh.pieces|;
    forall c
      ensures c in r.verticalCuts <==> c < stock.length && exists k :: 0 <= k < |r.pieces| && RightEdge(r.pieces[k]) == c
    {
      if c < stock.length && (exists k :: 0 <= k < |r.pieces| && RightEdge(r.pieces[k]) == c) {
        var k :| 0 <= k < |r.pieces| && RightEdge(r.pieces[k]) == c;
        if k < n { assert r.pieces[k] == sh.pieces[k]; }
      }
      if c in sh.verticalCuts {
        var k :| 0 <= k < |sh.pieces| && RightEdge(sh.pieces[k]) == c;
        assert r.pieces[k] == sh.pieces[k];
      }
      if c == sh.cursor.x + o.width {
        assert RightEdge(r.pieces[n]) == c;
      }
    }
    forall c
      ensures c in r.horizontalCuts <==> c < stock.width && exists k :: 0 <= k < |r.pieces| && BottomEdge(r.pieces[k]) == c
    {
      if c < stock.width && (exists k :: 0 <= k < |r.pieces| && BottomEdge(r.pieces[k]) == c) {
        var k :| 0 <= k < |r.pieces| && BottomEdge(r.pieces[k]) == c;
        if k < n { assert r.pieces[k] == sh.pieces[k]; }
      }
      if c in sh.horizontalCuts {
        var k :| 0 <= k < |sh.pieces| && BottomEdge(sh.pieces[k]) == c;
        assert r.pieces[k] == sh.pieces[k];
      }
      if c == sh.cursor.y + o.height {
        assert BottomEdge(r.pieces[n]) == c;
      }
    }
  }

  lemma PlacePieceKeepsCuts(stock: Stock, sh: Sheet, piece: Piece)
    requires CutsRecordEdges(stock, sh)
    requires PlacePiece(stock, sh, piece).Some?
    ensures CutsRecordEdges(stock, PlacePiece(stock, sh, piece).value)
  {
    match FirstOrientation(stock, sh.cursor, Orientations(piece))
    case Some(o) =>
      PlaceAtCursorKeepsCuts(stock, sh, piece, o);
    case None =>
      var sh' := sh.(cursor := NewRow(sh.cursor));
      var o := FirstOrientation(stock, sh'.cursor, Orientations(piece)).value;
      PlaceAtCursorKeepsCuts(stock, sh', piece, o);
  }

  lemma {:induction false} LayoutLoopKeepsCuts(stock: Stock, sh: Sheet, pieces: seq<Piece>, i: nat)
    requires i <= |pieces| && CutsRecordEdges(stock, sh)
    decreases |pieces| - i
    ensures CutsRecordEdges(stock, LayoutLoop(stock, sh, pieces, i).0)
  {
    if i < |pieces| && PlacePiece(stock, sh, pieces[i]).Some? {
      PlacePieceKeepsCuts(stock, sh, pieces[i]);
      LayoutLoopKeepsCuts(stock, PlacePiece(stock, sh, pieces[i]).value, pieces, i + 1);
    }
  }

  /** With positive footprints, every recorded cut is strictly inside the block. */
  lemma CutsInsideBlock(stock: Stock, sh: Sheet)
    requires ValidSheet(stock, sh) && CutsRecordEdges(stock, sh)
    requires forall k :: 0 <= k < |sh.pieces| ==> sh.pieces[k].width > 0.0 && sh.pieces[k].height > 0.0
    ensures forall c :: c in sh.verticalCuts ==> 0.0 < c < stock.length
    ensures forall c :: c in sh.horizontalCuts ==> 0.0 < c < stock.width
  {
  }

  // ---------------------------------------------------------------------------
  // createGuillotineLayout

  /** The comparator `areaB - areaA`: larger footprint first. */
  predicate AreaDescending(a: Piece, b: Piece) {
    a.length * a.width >= b.length * b.width
  }

  lemma AreaDescendingTotalPreorder()
    ensures TotalPreorder(AreaDescending)
  {
  }

  function FootprintArea(p: GPlaced): real {
    p.width * p.height
  }

  function UsedArea(ps: seq<GPlaced>): real {
    if |ps| == 0 then 0.0 else FootprintArea(ps[0]) + UsedArea(ps[1..])
  }

  predicate PositiveFootprintStock(stock: Stock) {
    stock.length > 0.0 && stock.width > 0.0
  }

  /** `utilization = usedArea / totalArea * 100`, an area ratio of the block's top face. */
  function SheetUtilization(stock: Stock, ps: seq<GPlaced>): (u: real)
    requires PositiveFootprintStock(stock)
    ensures u * (stock.length * stock.width) == 100.0 * UsedArea(ps)
  {
    (UsedArea(ps) / (stock.length * stock.width)) * 100.0
  }

  /** The pieces sorted by footprint area, largest first: the in-place sort of `availablePieces`. */
  function SortByArea(available: seq<Piece>): (r: seq<Piece>)
    ensures |r| == |available| && multiset(r) == multiset(available)
    ensures forall a, b :: 0 <= a < b < |r| ==> AreaDescending(r[a], r[b])
  {
    AreaDescendingTotalPreorder();
    var r := SortBy(available, AreaDescending);
    assert SortedBy(r, AreaDescending);
    r
  }

  /**
    `createGuillotineLayout`, returning the layout and the sorted order that
    the in-place sort leaves in the caller's list.
   */
  function CreateLayout(stock: Stock, available: seq<Piece>): (r: (GLayout, seq<Piece>))
    requires PositiveFootprintStock(stock)
    ensures r.1 == SortByArea(available)
    ensures r.0.stockId == stock.id && |r.0.pieces| <= |r.1|
    ensures r.0.utilization == SheetUtilization(stock, r.0.pieces)
    ensures StrictlyAscending(r.0.horizontalCuts)
    ensures StrictlyAscending(r.0.verticalCuts)
  {
    var sorted := SortByArea(available);
    var loop := LayoutLoop(stock, EmptySheet, sorted, 0);
    var sh := loop.0;
    LayoutLoopKeepsCuts(stock, EmptySheet, sorted, 0);
    assert NoDuplicates(sh.horizontalCuts) && NoDuplicates(sh.verticalCuts);
    var hs := SortAscending(sh.horizontalCuts);
    var vs := SortAscending(sh.verticalCuts);
    (GLayout(stock.id, sh.pieces, hs, vs, SheetUtilization(stock, sh.pieces)), sorted)
  }

  /** The `k`-th placement is the `k`-th piece of the sorted list, in one of its two footprint orientations. */
  lemma CreateLayoutPlacedFrom(stock: Stock, available: seq<Piece>)
    requires PositiveFootprintStock(stock)
    ensures var r := CreateLayout(stock, available);
            forall k :: 0 <= k < |r.0.pieces| ==> PlacedFrom(r.0.pieces[k], r.1[k])
  {
    LayoutLoopPlacedFrom(stock, EmptySheet, SortByArea(available), 0);
  }

  lemma LayoutLoopPositive(stock: Stock, sorted: seq<Piece>, sh: Sheet)
    requires AllPositivePieces(sorted) && sh == LayoutLoop(stock, EmptySheet, sorted, 0).0
    ensures forall k :: 0 <= k < |sh.pieces| ==> sh.pieces[k].width > 0.0 && sh.pieces[k].height > 0.0
  {
    var ps := sh.pieces;
    LayoutLoopPlacedFrom(stock, EmptySheet, sorted, 0);
    forall k | 0 <= k < |ps|
      ensures ps[k].width > 0.0 && ps[k].height > 0.0
    {
      assert PlacedFrom(ps[k], sorted[k]) && PositivePiece(sorted[k]);
    }
  }

  /** The placed pieces are the first pieces of the sorted list; placement stops at the first one that fits nowhere. */
  lemma CreateLayoutPrefix(stock: Stock, available: seq<Piece>)
    requires PositiveFootprintStock(stock)
    ensures var loop := LayoutLoop(stock, EmptySheet, SortByArea(available), 0);
            && CreateLayout(stock, available).0.pieces == loop.0.pieces
            && |loop.0.pieces| == loop.1
            && (loop.1 < |available| ==> PlacePiece(stock, loop.0, SortByArea(available)[loop.1]).None?)
  {
  }

  /** The geometry of a layout: inside the block, on its floor, pairwise disjoint, and cuts strictly inside. */
  lemma CreateLayoutValid(stock: Stock, available: seq<Piece>)
    requires PositiveFootprintStock(stock) && AllNonNegativeFootprints(available)
    ensures var l := CreateLayout(stock, available).0;
            && (forall k :: 0 <= k < |l.pieces| ==> InsideBlock(stock, l.pieces[k]))
            && (forall a, b :: 0 <= a < b < |l.pieces| ==> !RectsOverlap(Footprint(l.pieces[a]), Footprint(l.pieces[b])))
  {
    var sorted := SortByArea(available);
    forall k | 0 <= k < |sorted|
      ensures NonNegativeFootprint(sorted[k])
    {
      assert sorted[k] in multiset(available);
    }
    LayoutLoopKeepsValid(stock, EmptySheet, sorted, 0);
  }

  /** With positive piece extents, every cut of a layout lies strictly inside the block. */
  lemma CreateLayoutCutsInside(stock: Stock, available: seq<Piece>)
    requires PositiveFootprintStock(stock) && AllPositivePieces(available)
    ensures var l := CreateLayout(stock, available).0;
            && (forall k :: 0 <= k < |l.verticalCuts| ==> 0.0 < l.verticalCuts[k] < stock.length)
            && (forall k :: 0 <= k < |l.horizontalCuts| ==> 0.0 < l.horizontalCuts[k] < stock.width)
  {
    var sorted := SortByArea(available);
    var sh := LayoutLoop(stock, EmptySheet, sorted, 0).0;
    forall k | 0 <= k < |sorted|
      ensures NonNegativeFootprint(sorted[k]) && PositivePiece(sorted[k])
    {
      assert sorted[k] in multiset(available);
    }
    LoopCutsInside(stock, sorted, sh);
    var l := CreateLayout(stock, available).0;
    assert multiset(l.verticalCuts) == multiset(sh.verticalCuts);
    assert multiset(l.horizontalCuts) == multiset(sh.horizontalCuts);
    forall k | 0 <= k < |l.verticalCuts|
      ensures 0.0 < l.verticalCuts[k] < stock.length
    {
      assert l.verticalCuts[k] in multiset(sh.verticalCuts);
      assert l.verticalCuts[k] in sh.verticalCuts;
    }
    forall k | 0 <= k < |l.horizontalCuts|
      ensures 0.0 < l.horizontalCuts[k] < stock.width
    {
      assert l.horizontalCuts[k] in multiset(sh.horizontalCuts);
      assert l.horizontalCuts[k] in sh.horizontalCuts;
    }
  }

  lemma LoopCutsInside(stock: Stock, sorted: seq<Piece>, sh: Sheet)
    requires AllPositivePieces(sorted) && AllNonNegativeFootprints(sorted)
    requires sh == LayoutLoop(stock, EmptySheet, sorted, 0).0
    ensures forall c :: c in sh.verticalCuts ==> 0.0 < c < stock.length
    ensures forall c :: c in sh.horizontalCuts ==> 0.0 < c < stock.width
  {
    LayoutLoopKeepsValid(stock, EmptySheet, sorted, 0);
    LayoutLoopKeepsCuts(stock, EmptySheet, sorted, 0);
    LayoutLoopPositive(stock, sorted, sh);
    CutsInsideBlock(stock, sh);
  }

  // ---------------------------------------------------------------------------
  // Removing placed pieces

  function LayoutIds(ps: seq<GPlaced>): (r: seq<string>)
    ensures |r| == |ps| && forall i :: 0 <= i < |ps| ==> r[i] == ps[i].pieceId
  {
    seq(|ps|, i requires 0 <= i < |ps| => ps[i].pieceId)
  }

  /** `remainingPieces.filter(piece => !placedPieceIds.includes(piece.id))`. */
  function RemovePlaced(ps: seq<Piece>, placedIds: seq<string>): (r: seq<Piece>)
    ensures |r| <= |ps|
  {
    if |ps| == 0 then []
    else if ps[0].id in placedIds then RemovePlaced(ps[1..], placedIds)
    else [ps[0]] + RemovePlaced(ps[1..], placedIds)
  }

  /** What is kept is exactly the pieces whose id was not placed. */
  lemma {:induction false} RemovePlacedFilters(ps: seq<Piece>, placedIds: seq<string>)
    ensures var r := RemovePlaced(ps, placedIds);
            && (forall k :: 0 <= k < |r| ==> r[k] in ps && r[k].id !in placedIds)
            && (forall k :: 0 <= k < |ps| && ps[k].id !in placedIds ==> ps[k] in r)
  {
    if |ps| > 0 {
      RemovePlacedFilters(ps[1..], placedIds);
      var r := RemovePlaced(ps, placedIds);
      var r' := RemovePlaced(ps[1..], placedIds);
      forall k | 0 <= k < |r|
        ensures r[k] in ps && r[k].id !in placedIds
      {
        if ps[0].id !in placedIds && k == 0 {
          assert r[0] == ps[0];
        } else if ps[0].id !in placedIds {
          assert r[k] == r'[k - 1];
        } else {
          assert r[k] == r'[k];
        }
      }
      forall k | 0 <= k < |ps| && ps[k].id !in placedIds
        ensures ps[k] in r
      {
        if k > 0 {
          assert ps[k] == ps[1..][k - 1];
        }
      }
    }
  }

  /** With distinct ids, removing the ids of a prefix leaves exactly the rest of the list. */
  lemma {:induction false} RemovePrefixIds(s: seq<Piece>, m: nat)
    requires m <= |s| && NoDuplicates(Ids(s))
    ensures RemovePlaced(s, Ids(s[..m])) == s[m..]
  {
    var ids := Ids(s[..m]);
    RemoveNotPresent(s, m, m);
    assert forall k :: 0 <= k < m ==> s[..m][k].id == ids[k];
    RemoveAllPresent(s[..m], ids);
    RemovePlacedAppend(s[..m], s[m..], ids);
    assert s[..m] + s[m..] == s;
  }

  lemma {:induction false} RemovePlacedAppend(a: seq<Piece>, b: seq<Piece>, ids: seq<string>)
    ensures RemovePlaced(a + b, ids) == RemovePlaced(a, ids) + RemovePlaced(b, ids)
  {
    if |a| > 0 {
      assert (a + b)[1..] == a[1..] + b;
      RemovePlacedAppend(a[1..], b, ids);
    } else {
      assert a + b == b;
    }
  }

  lemma {:induction false} RemoveAllPresent(a: seq<Piece>, ids: seq<string>)
    requires forall k :: 0 <= k < |a| ==> a[k].id in ids
    ensures RemovePlaced(a, ids) == []
  {
    if |a| > 0 {
      RemoveAllPresent(a[1..], ids);
    }
  }

  /** With distinct ids, nothing after the prefix `s[..m]` carries one of its ids. */
  lemma {:induction false} RemoveNotPresent(s: seq<Piece>, m: nat, d: nat)
    requires m <= d <= |s| && NoDuplicates(Ids(s))
    decreases |s| - d
    ensures RemovePlaced(s[d..], Ids(s[..m])) == s[d..]
  {
    if d < |s| {
      var ids := Ids(s[..m]);
      assert s[d..][0] == s[d] && s[d..][1..] == s[d + 1..];
      assert s[d].id !in ids by {
        forall k | 0 <= k < m
          ensures ids[k] != s[d].id
        {
          assert Ids(s)[k] != Ids(s)[d];
        }
      }
      assert RemovePlaced(s[d..], ids) == [s[d]] + RemovePlaced(s[d + 1..], ids);
      RemoveNotPresent(s, m, d + 1);
    }
  }

  // ---------------------------------------------------------------------------
  // The optimize loop

  /** Every piece of a layout sits inside the given block, no two footprints overlap, and the cuts are ascending. */
  predicate LayoutFits(l: GLayout, stock: Stock) {
    && l.stockId == stock.id && |l.pieces| > 0
    && (forall k :: 0 <= k < |l.pieces| ==> InsideBlock(stock, l.pieces[k]))
    && (forall a, b :: 0 <= a < b < |l.pieces| ==> !RectsOverlap(Footprint(l.pieces[a]), Footprint(l.pieces[b])))
    && StrictlyAscending(l.horizontalCuts) && StrictlyAscending(l.verticalCuts)
  }

  function AllLayoutIds(ls: seq<GLayout>): seq<string> {
    if |ls| == 0 then [] else AllLayoutIds(ls[..|ls| - 1]) + LayoutIds(ls[|ls| - 1].pieces)
  }

  lemma AllLayoutIdsAppend(ls: seq<GLayout>, l: GLayout)
    ensures AllLayoutIds(ls + [l]) == AllLayoutIds(ls) + LayoutIds(l.pieces)
  {
    assert (ls + [l])[..|ls|] == ls;
  }

  /** How many of the recorded layouts used stock type `si`. */
  function CountOf(used: seq<nat>, si: nat): nat {
    if |used| == 0 then 0 else (if used[|used| - 1] == si then 1 else 0) + CountOf(used[..|used| - 1], si)
  }

  lemma CountOfAppend(used: seq<nat>, x: nat, si: nat)
    ensures CountOf(used + [x], si) == CountOf(used, si) + (if x == si then 1 else 0)
  {
    assert (used + [x])[..|used|] == used;
  }

  /** The state of the two nested loops: the layouts so far, the pieces left, and which stock type each layout used. */
  datatype GRun = GRun(layouts: seq<GLayout>, remaining: seq<Piece>, used: seq<nat>)

  predicate GRunInvariant(stocks: seq<Stock>, run: GRun) {
    && |run.layouts| == |run.used|
    && (forall a :: 0 <= a < |run.used| ==> run.used[a] < |stocks| && run.layouts[a].stockId == stocks[run.used[a]].id)
    && (forall a :: 0 <= a < |run.layouts| ==> |run.layouts[a].pieces| > 0)
    && (forall a, b :: 0 <= a < b < |run.used| ==> run.used[a] <= run.used[b])
  }

  /** Every instance is either placed exactly once or still remaining; `ids` lists each instance once. */
  predicate IdsConserved(run: GRun, ids: seq<string>) {
    NoDuplicates(ids) && multiset(AllLayoutIds(run.layouts)) + multiset(Ids(run.remaining)) == multiset(ids)
  }

  /** Every recorded layout fits the stock type it used, and the pieces left have non-negative footprints. */
  predicate GRunValid(stocks: seq<Stock>, run: GRun) {
    && (forall a :: 0 <= a < |run.used| && a < |run.layouts| && run.used[a] < |stocks| ==>
          LayoutFits(run.layouts[a], stocks[run.used[a]]))
    && AllNonNegativeFootprints(run.remaining)
  }

  /** `createGuillotineLayout` as the loop sees it: the facts about the layout and the re-ordered pieces. */
  method LayOutBlock(stock: Stock, available: seq<Piece>) returns (layout: GLayout, sorted: seq<Piece>)
    requires PositiveFootprintStock(stock)
    ensures layout.stockId == stock.id && |layout.pieces| <= |sorted|
    ensures multiset(sorted) == multiset(available)
    ensures LayoutIds(layout.pieces) == Ids(sorted[..|layout.pieces|])
    ensures StrictlyAscending(layout.horizontalCuts) && StrictlyAscending(layout.verticalCuts)
    ensures AllNonNegativeFootprints(available) ==>
              (forall k :: 0 <= k < |layout.pieces| ==> InsideBlock(stock, layout.pieces[k])) &&
              (forall a, b :: 0 <= a < b < |layout.pieces| ==>
                 !RectsOverlap(Footprint(layout.pieces[a]), Footprint(layout.pieces[b])))
  {
    var created := CreateLayout(stock, available);
    layout, sorted := created.0, created.1;
    CreateLayoutPlacedFrom(stock, available);
    PlacedIds(layout.pieces, sorted);
    if AllNonNegativeFootprints(available) {
      CreateLayoutValid(stock, available);
    }
  }

  lemma PlacedIds(placed: seq<GPlaced>, sorted: seq<Piece>)
    requires |placed| <= |sorted| && forall k :: 0 <= k < |placed| ==> PlacedFrom(placed[k], sorted[k])
    ensures LayoutIds(placed) == Ids(sorted[..|placed|])
  {
    assert forall k :: 0 <= k < |placed| ==> LayoutIds(placed)[k] == Ids(sorted[..|placed|])[k];
  }

  lemma PermutationNonNegative(s: seq<Piece>, t: seq<Piece>)
    requires multiset(s) == multiset(t) && AllNonNegativeFootprints(s)
    ensures AllNonNegativeFootprints(t)
  {
    forall k | 0 <= k < |t|
      ensures NonNegativeFootprint(t[k])
    {
      assert t[k] in multiset(s);
    }
  }

  /** Moving the placed prefix of the sorted pieces into a new layout keeps every instance accounted for once. */
  lemma BlockKeepsIds(run: GRun, sorted: seq<Piece>, layout: GLayout, used: seq<nat>, ids: seq<string>)
    requires IdsConserved(run, ids) && multiset(sorted) == multiset(run.remaining)
    requires |layout.pieces| <= |sorted| && LayoutIds(layout.pieces) == Ids(sorted[..|layout.pieces|])
    ensures IdsConserved(GRun(run.layouts + [layout], RemovePlaced(sorted, LayoutIds(layout.pieces)), used), ids)
  {
    var m := |layout.pieces|;
    var before := AllLayoutIds(run.layouts);
    SortedIdsUnique(run, sorted, ids);
    RemovePrefixIds(sorted, m);
    PrefixSplitIds(sorted, m);
    AllLayoutIdsAppend(run.layouts, layout);
    assert multiset(AllLayoutIds(run.layouts + [layout])) == multiset(before) + multiset(Ids(sorted[..m]));
  }

  /** The re-ordered remaining pieces carry distinct ids, the same ones as before. */
  lemma SortedIdsUnique(run: GRun, sorted: seq<Piece>, ids: seq<string>)
    requires IdsConserved(run, ids) && multiset(sorted) == multiset(run.remaining)
    ensures NoDuplicates(Ids(sorted)) && multiset(Ids(sorted)) == multiset(Ids(run.remaining))
  {
    IdsOfPermutation(run.remaining, sorted);
    SubMultisetNoDuplicates(Ids(sorted), ids);
  }

  lemma PrefixSplitIds(s: seq<Piece>, m: nat)
    requires m <= |s|
    ensures multiset(Ids(s[..m])) + multiset(Ids(s[m..])) == multiset(Ids(s))
  {
    assert s[..m] + s[m..] == s;
    IdsAppend(s[..m], s[m..]);
  }

  /** Re-ordering the remaining pieces keeps every instance accounted for once. */
  lemma ReorderKeepsIds(run: GRun, sorted: seq<Piece>, ids: seq<string>)
    requires IdsConserved(run, ids) && multiset(sorted) == multiset(run.remaining)
    ensures IdsConserved(run.(remaining := sorted), ids)
  {
    IdsOfPermutation(run.remaining, sorted);
  }

  /** Recording a layout that fits stock `si` keeps every recorded layout fitting its stock. */
  lemma BlockKeepsValid(stocks: seq<Stock>, si: nat, run: GRun, layout: GLayout, rest: seq<Piece>)
    requires si < |stocks| && |run.layouts| == |run.used| && GRunValid(stocks, run)
    requires LayoutFits(layout, stocks[si]) && AllNonNegativeFootprints(rest)
    ensures GRunValid(stocks, GRun(run.layouts + [layout], rest, run.used + [si]))
  {
    var next := GRun(run.layouts + [layout], rest, run.used + [si]);
    forall a | 0 <= a < |next.used| && a < |next.layouts| && next.used[a] < |stocks|
      ensures LayoutFits(next.layouts[a], stocks[next.used[a]])
    {
      if a < |run.used| {
        assert next.layouts[a] == run.layouts[a] && next.used[a] == run.used[a];
      }
    }
  }

  /** Recording a layout of stock `si`, the highest stock type used so far, keeps the loop invariant. */
  lemma BlockKeepsInvariant(stocks: seq<Stock>, si: nat, run: GRun, layout: GLayout, rest: seq<Piece>)
    requires si < |stocks| && GRunInvariant(stocks, run) && (|run.used| > 0 ==> run.used[|run.used| - 1] <= si)
    requires layout.stockId == stocks[si].id && |layout.pieces| > 0
    ensures GRunInvariant(stocks, GRun(run.layouts + [layout], rest, run.used + [si]))
  {
    var next := GRun(run.layouts + [layout], rest, run.used + [si]);
    forall a, b | 0 <= a < b < |next.used|
      ensures next.used[a] <= next.used[b]
    {
      if b == |run.used| {
        assert run.used[a] <= run.used[|run.used| - 1];
      }
    }
    forall a | 0 <= a < |next.used|
      ensures next.used[a] < |stocks| && next.layouts[a].stockId == stocks[next.used[a]].id && |next.layouts[a].pieces| > 0
    {
      if a < |run.used| {
        assert next.layouts[a] == run.layouts[a] && next.used[a] == run.used[a];
      }
    }
  }

  /**
    What the blocks of stock `si` do to the loop state: the invariant still
    holds with `si` the highest stock type used, layouts and stock types are
    only appended, every appended layout used `si`, and conservation of ids
    and fitting layouts carry over.
   */
  predicate Extends(stocks: seq<Stock>, si: nat, run: GRun, next: GRun, ids: seq<string>) {
    && GRunInvariant(stocks, next) && (|next.used| > 0 ==> next.used[|next.used| - 1] <= si)
    && run.layouts <= next.layouts && run.used <= next.used
    && (forall a :: |run.used| <= a < |next.used| ==> next.used[a] == si)
    && (IdsConserved(run, ids) ==> IdsConserved(next, ids))
    && (GRunValid(stocks, run) ==> GRunValid(stocks, next))
  }

  lemma ExtendsTransitive(stocks: seq<Stock>, si: nat, run: GRun, mid: GRun, next: GRun, ids: seq<string>)
    requires Extends(stocks, si, run, mid, ids) && Extends(stocks, si, mid, next, ids)
    ensures Extends(stocks, si, run, next, ids)
  {
    forall a | |run.used| <= a < |next.used|
      ensures next.used[a] == si
    {
      if a < |mid.used| {
        assert next.used[a] == mid.used[a];
      }
    }
  }

  /** One block of stock `si`: lay it out and, if anything was placed, keep it and drop the placed ids. */
  method Block(stocks: seq<Stock>, si: nat, run: GRun, ghost ids: seq<string>) returns (next: GRun)
    requires si < |stocks| && PositiveFootprintStock(stocks[si])
    requires GRunInvariant(stocks, run) && (|run.used| > 0 ==> run.used[|run.used| - 1] <= si)
    ensures Extends(stocks, si, run, next, ids) && |next.layouts| <= |run.layouts| + 1
  {
    var stock := stocks[si];
    var layout, sorted := LayOutBlock(stock, run.remaining);
    if |layout.pieces| > 0 {
      var rest := RemovePlaced(sorted, LayoutIds(layout.pieces));
      next := GRun(run.layouts + [layout], rest, run.used + [si]);
      assert AllNonNegativeFootprints(run.remaining) ==> LayoutFits(layout, stock);
      PlacedBlockExtends(stocks, si, run, layout, sorted, ids);
    } else {
      next := run.(remaining := sorted);
      ReorderExtends(stocks, si, run, sorted, ids);
    }
  }

  /** Recording a non-empty layout of stock `si` and dropping its ids extends the loop state. */
  lemma PlacedBlockExtends(stocks: seq<Stock>, si: nat, run: GRun, layout: GLayout, sorted: seq<Piece>, ids: seq<string>)
    requires si < |stocks| && GRunInvariant(stocks, run) && (|run.used| > 0 ==> run.used[|run.used| - 1] <= si)
    requires layout.stockId == stocks[si].id && 0 < |layout.pieces| <= |sorted|
    requires multiset(sorted) == multiset(run.remaining)
    requires LayoutIds(layout.pieces) == Ids(sorted[..|layout.pieces|])
    requires AllNonNegativeFootprints(run.remaining) ==> LayoutFits(layout, stocks[si])
    ensures Extends(stocks, si, run, GRun(run.layouts + [layout], RemovePlaced(sorted, LayoutIds(layout.pieces)), run.used + [si]), ids)
  {
    var rest := RemovePlaced(sorted, LayoutIds(layout.pieces));
    var next := GRun(run.layouts + [layout], rest, run.used + [si]);
    BlockKeepsInvariant(stocks, si, run, layout, rest);
    PlacedKeepsIds(run, layout, sorted, si, ids);
    PlacedKeepsValid(stocks, si, run, layout, sorted);
    assert |next.used| == |run.used| + 1 && next.used[|run.used|] == si;
    assert run.layouts <= next.layouts && run.used <= next.used;
  }

  lemma PlacedKeepsIds(run: GRun, layout: GLayout, sorted: seq<Piece>, si: nat, ids: seq<string>)
    requires |layout.pieces| <= |sorted| && multiset(sorted) == multiset(run.remaining)
    requires LayoutIds(layout.pieces) == Ids(sorted[..|layout.pieces|])
    ensures IdsConserved(run, ids) ==>
              IdsConserved(GRun(run.layouts + [layout], RemovePlaced(sorted, LayoutIds(layout.pieces)), run.used + [si]), ids)
  {
    if IdsConserved(run, ids) {
      BlockKeepsIds(run, sorted, layout, run.used + [si], ids);
    }
  }

  lemma PlacedKeepsValid(stocks: seq<Stock>, si: nat, run: GRun, layout: GLayout, sorted: seq<Piece>)
    requires si < |stocks| && |run.layouts| == |run.used| && multiset(sorted) == multiset(run.remaining)
    requires AllNonNegativeFootprints(run.remaining) ==> LayoutFits(layout, stocks[si])
    ensures GRunValid(stocks, run) ==>
              GRunValid(stocks, GRun(run.layouts + [layout], RemovePlaced(sorted, LayoutIds(layout.pieces)), run.used + [si]))
  {
    if GRunValid(stocks, run) {
      var rest := RemovePlaced(sorted, LayoutIds(layout.pieces));
      PermutationNonNegative(run.remaining, sorted);
      RemovePlacedFilters(sorted, LayoutIds(layout.pieces));
      assert AllNonNegativeFootprints(rest);
      BlockKeepsValid(stocks, si, run, layout, rest);
    }
  }

  /** Only re-ordering the remaining pieces extends the loop state. */
  lemma ReorderExtends(stocks: seq<Stock>, si: nat, run: GRun, sorted: seq<Piece>, ids: seq<string>)
    requires GRunInvariant(stocks, run) && (|run.used| > 0 ==> run.used[|run.used| - 1] <= si)
    requires multiset(sorted) == multiset(run.remaining)
    ensures Extends(stocks, si, run, run.(remaining := sorted), ids)
  {
    if IdsConserved(run, ids) {
      ReorderKeepsIds(run, sorted, ids);
    }
    if GRunValid(stocks, run) {
      PermutationNonNegative(run.remaining, sorted);
    }
  }

  /** The inner `for` loop: up to `stock.quantity` blocks of stock `si`, stopping once no piece remains. */
  method StockBlocks(stocks: seq<Stock>, si: nat, run: GRun, ghost ids: seq<string>) returns (next: GRun)
    requires si < |stocks| && PositiveFootprintStock(stocks[si])
    requires GRunInvariant(stocks, run) && (|run.used| > 0 ==> run.used[|run.used| - 1] <= si)
    ensures Extends(stocks, si, run, next, ids)
    ensures |next.layouts| <= |run.layouts| + stocks[si].quantity
  {
    next := run;
    var b := 0;
    while b < stocks[si].quantity
      invariant b <= stocks[si].quantity
      invariant Extends(stocks, si, run, next, ids)
      invariant |next.layouts| <= |run.layouts| + b
    {
      if |next.remaining| == 0 {
        break;
      }
      var after := Block(stocks, si, next, ids);
      ExtendsTransitive(stocks, si, run, next, after, ids);
      next := after;
      b := b + 1;
    }
  }

  lemma UniqueIdsNoDuplicates(ps: seq<Piece>)
    requires UniquePieceIds(ps)
    ensures NoDuplicates(Ids(ps))
  {
  }

  /** The two nested loops of `optimize`: every stock type in input order, each for up to its quantity of blocks. */
  method LayoutAll(pieces: seq<Piece>, stocks: seq<Stock>) returns (run: GRun)
    requires forall si :: 0 <= si < |stocks| ==> PositiveFootprintStock(stocks[si])
    ensures GRunInvariant(stocks, run)
    ensures forall si :: 0 <= si < |stocks| ==> CountOf(run.used, si) <= stocks[si].quantity
    ensures UniquePieceIds(pieces) && NoUnderscoreIds(pieces) ==> IdsConserved(run, Ids(ExpandPieces(pieces)))
    ensures AllPositivePieces(pieces) ==> GRunValid(stocks, run)
  {
    var expanded := ExpandPieces(pieces);
    run := GRun([], expanded, []);
    ghost var ids := Ids(expanded);
    if UniquePieceIds(pieces) && NoUnderscoreIds(pieces) {
      ExpandedIdsUnique(pieces);
      UniqueIdsNoDuplicates(expanded);
    }
    var si := 0;
    while si < |stocks|
      invariant si <= |stocks|
      invariant StockCounts(stocks, si, run)
      invariant UniquePieceIds(pieces) && NoUnderscoreIds(pieces) ==> IdsConserved(run, ids)
      invariant AllPositivePieces(pieces) ==> GRunValid(stocks, run)
    {
      var prev := run;
      run := StockBlocks(stocks, si, run, ids);
      NextStockCounts(stocks, si, prev, run, ids);
      si := si + 1;
    }
  }

  /** Before stock type `si`: the loop invariant holds, only earlier types were used, each at most its quantity of times. */
  predicate StockCounts(stocks: seq<Stock>, si: nat, run: GRun) {
    && GRunInvariant(stocks, run)
    && (forall a :: 0 <= a < |run.used| ==> run.used[a] < si)
    && (forall s :: 0 <= s < |stocks| ==> CountOf(run.used, s) <= (if s < si then stocks[s].quantity else 0))
  }

  /** The blocks of stock `si` move the counts on to the next stock type. */
  lemma NextStockCounts(stocks: seq<Stock>, si: nat, prev: GRun, run: GRun, ids: seq<string>)
    requires si < |stocks| && StockCounts(stocks, si, prev)
    requires Extends(stocks, si, prev, run, ids) && |run.layouts| <= |prev.layouts| + stocks[si].quantity
    ensures StockCounts(stocks, si + 1, run)
  {
    CountAfterBlocks(prev.used, run.used, si, stocks);
  }

  /** Appending only `si` entries adds to the count of `si` and leaves the other counts alone. */
  lemma {:induction false} CountAfterBlocks(before: seq<nat>, after: seq<nat>, si: nat, stocks: seq<Stock>)
    requires si < |stocks| && before <= after && |after| <= |before| + stocks[si].quantity
    requires forall a :: |before| <= a < |after| ==> after[a] == si
    requires forall a :: 0 <= a < |before| ==> before[a] < si
    ensures forall a :: 0 <= a < |after| ==> after[a] < si + 1
    ensures forall s :: 0 <= s < |stocks| && s != si ==> CountOf(after, s) == CountOf(before, s)
    ensures CountOf(after, si) == |after| - |before|
    decreases |after|
  {
    if |after| > |before| {
      var shorter := after[..|after| - 1];
      assert before <= shorter;
      CountAfterBlocks(before, shorter, si, stocks);
      assert after == shorter + [si];
      forall s | 0 <= s < |stocks|
        ensures CountOf(after, s) == CountOf(shorter, s) + (if s == si then 1 else 0)
      {
        CountOfAppend(shorter, si, s);
      }
    } else {
      assert after == before;
      CountOfZero(before, si);
    }
  }

  lemma {:induction false} CountOfZero(used: seq<nat>, si: nat)
    requires forall a :: 0 <= a < |used| ==> used[a] < si
    ensures CountOf(used, si) == 0
  {
    if |used| > 0 {
      CountOfZero(used[..|used| - 1], si);
    }
  }

  // ---------------------------------------------------------------------------
  // Results, cut plan and time estimate

  /** Seconds per straight cut. */
  const TimePerCut: nat := 15

  function LayoutCuts(l: GLayout): nat {
    |l.horizontalCuts| + |l.verticalCuts|
  }

  /** `calculateTotalCuts`. */
  function TotalCuts(ls: seq<GLayout>): (n: nat)
    ensures |ls| == 0 ==> n == 0
    ensures forall k :: 0 <= k < |ls| ==> LayoutCuts(ls[k]) <= n
    ensures n == 0 <==> forall k :: 0 <= k < |ls| ==> LayoutCuts(ls[k]) == 0
  {
    if |ls| == 0 then 0 else LayoutCuts(ls[0]) + TotalCuts(ls[1..])
  }

  /** `estimateCuttingTime`. */
  function EstimateCuttingTime(ls: seq<GLayout>): (t: nat)
    ensures t == TimePerCut * TotalCuts(ls)
  {
    TotalCuts(ls) * TimePerCut
  }

  /** `estimateBlockCuttingTime`. */
  function EstimateBlockTime(l: GLayout): (t: nat)
    ensures t == TimePerCut * (|l.horizontalCuts| + |l.verticalCuts|)
  {
    LayoutCuts(l) * TimePerCut
  }

  /** One entry of `cuttingInstructions.instructions`; phase 1 is the horizontal cuts, phase 2 the vertical ones. */
  datatype BlockInstruction = BlockInstruction(blockNumber: nat, stockLabel: string,
                                               phase1: seq<real>, phase2: seq<real>,
                                               totalCuts: nat, estimatedTime: nat)

  datatype Summary = Summary(totalBlocks: nat, totalCuts: nat, estimatedTotalTime: nat)

  /** `stock?.label || 'Bilinmeyen'`: a missing stock or an empty label gives the fallback text. */
  function StockLabel(stocks: seq<Stock>, id: string): (s: string)
    ensures FindStock(stocks, id).Some? && FindStock(stocks, id).value.caption != "" ==> s == FindStock(stocks, id).value.caption
    ensures FindStock(stocks, id).Some? && FindStock(stocks, id).value.caption == "" ==> s == "Bilinmeyen"
    ensures FindStock(stocks, id).None? ==> s == "Bilinmeyen"
  {
    match FindStock(stocks, id)
    case Some(st) => if st.caption != "" then st.caption else "Bilinmeyen"
    case None => "Bilinmeyen"
  }

  function Instruction(stocks: seq<Stock>, ls: seq<GLayout>, i: nat): BlockInstruction
    requires i < |ls|
  {
    var l := ls[i];
    BlockInstruction(i + 1, StockLabel(stocks, l.stockId), l.horizontalCuts, l.verticalCuts,
                     LayoutCuts(l), EstimateBlockTime(l))
  }

  /** `generateCuttingInstructions(...).instructions`. */
  function Instructions(stocks: seq<Stock>, ls: seq<GLayout>): (r: seq<BlockInstruction>)
    ensures |r| == |ls|
    ensures forall i :: 0 <= i < |ls| ==> r[i].blockNumber == i + 1
    ensures forall i :: 0 <= i < |ls| ==> r[i].phase1 == ls[i].horizontalCuts && r[i].phase2 == ls[i].verticalCuts
    ensures forall i :: 0 <= i < |ls| ==> r[i].totalCuts == |r[i].phase1| + |r[i].phase2|
    ensures forall i :: 0 <= i < |ls| ==> r[i].estimatedTime == TimePerCut * r[i].totalCuts
  {
    seq(|ls|, i requires 0 <= i < |ls| => Instruction(stocks, ls, i))
  }

  function SumTimes(ins: seq<BlockInstruction>): nat {
    if |ins| == 0 then 0 else ins[0].estimatedTime + SumTimes(ins[1..])
  }

  /** `generateCuttingInstructions(...).summary`. */
  function InstructionSummary(stocks: seq<Stock>, ls: seq<GLayout>): (s: Summary)
    ensures s.totalBlocks == |ls|
    ensures s.totalCuts == TotalCuts(ls) && s.estimatedTotalTime == EstimateCuttingTime(ls)
  {
    SumTimesIsEstimate(stocks, ls);
    Summary(|ls|, TotalCuts(ls), SumTimes(Instructions(stocks, ls)))
  }

  /** The per-block times add up to the overall estimate: 15 seconds for every cut of every block. */
  lemma SummaryTimeIsEstimate(stocks: seq<Stock>, ls: seq<GLayout>)
    ensures InstructionSummary(stocks, ls).estimatedTotalTime == EstimateCuttingTime(ls)
    ensures InstructionSummary(stocks, ls).totalCuts == TotalCuts(ls)
  {
    SumTimesIsEstimate(stocks, ls);
  }

  lemma {:induction false} SumTimesIsEstimate(stocks: seq<Stock>, ls: seq<GLayout>)
    ensures SumTimes(Instructions(stocks, ls)) == TimePerCut * TotalCuts(ls)
  {
    if |ls| > 0 {
      var ins := Instructions(stocks, ls);
      SumTimesByTimes(Instructions(stocks, ls[1..]), ins[1..]);
      SumTimesIsEstimate(stocks, ls[1..]);
    }
  }

  lemma {:induction false} SumTimesByTimes(a: seq<BlockInstruction>, b: seq<BlockInstruction>)
    requires |a| == |b| && forall i :: 0 <= i < |a| ==> a[i].estimatedTime == b[i].estimatedTime
    ensures SumTimes(a) == SumTimes(b)
  {
    if |a| > 0 {
      SumTimesByTimes(a[1..], b[1..]);
    }
  }

  /** A placed piece as `optimize` reports it: coordinates converted from centimetres to millimetres. */
  datatype OutPiece = OutPiece(pieceId: string, x: real, y: real, z: real, rotated: bool)

  datatype OutLayout = OutLayout(stockId: string, pieces: seq<OutPiece>, utilization: real,
                                 horizontalCuts: seq<real>, verticalCuts: seq<real>, totalCuts: nat)

  function OutputLayout(l: GLayout): (r: OutLayout)
    ensures r.stockId == l.stockId && |r.pieces| == |l.pieces| && r.totalCuts == LayoutCuts(l)
    ensures forall k :: 0 <= k < |l.pieces| ==>
      r.pieces[k].pieceId == l.pieces[k].pieceId && r.pieces[k].rotated == l.pieces[k].rotated &&
      r.pieces[k].x == 10.0 * l.pieces[k].x && r.pieces[k].y == 10.0 * l.pieces[k].y && r.pieces[k].z == 10.0 * l.pieces[k].z
  {
    OutLayout(l.stockId,
              seq(|l.pieces|, k requires 0 <= k < |l.pieces| =>
                OutPiece(l.pieces[k].pieceId, l.pieces[k].x * 10.0, l.pieces[k].y * 10.0, l.pieces[k].z * 10.0, l.pieces[k].rotated)),
              l.utilization, l.horizontalCuts, l.verticalCuts, LayoutCuts(l))
  }

  /** The used volume `optimize` credits to a layout: the first stock with its id, scaled by the area utilisation. */
  function CreditedVolume(stocks: seq<Stock>, l: GLayout): real {
    match FindStock(stocks, l.stockId)
    case Some(s) => StockVolume(s) * l.utilization / 100.0
    case None => 0.0
  }

  function BlockVolume(stocks: seq<Stock>, l: GLayout): real {
    match FindStock(stocks, l.stockId)
    case Some(s) => StockVolume(s)
    case None => 0.0
  }

  function TotalCredited(stocks: seq<Stock>, ls: seq<GLayout>): real {
    if |ls| == 0 then 0.0 else CreditedVolume(stocks, ls[0]) + TotalCredited(stocks, ls[1..])
  }

  function TotalBlockVolume(stocks: seq<Stock>, ls: seq<GLayout>): real {
    if |ls| == 0 then 0.0 else BlockVolume(stocks, ls[0]) + TotalBlockVolume(stocks, ls[1..])
  }

  datatype GResult = GResult(layouts: seq<OutLayout>, efficiency: real, totalWaste: real, totalCost: real,
                             instructions: seq<BlockInstruction>, summary: Summary,
                             totalCuts: nat, cuttingTime: nat)

  /** `GuillotineCuttingEngine.optimize`. */
  method Optimize(pieces: seq<Piece>, stocks: seq<Stock>) returns (r: GResult, run: GRun)
    requires forall si :: 0 <= si < |stocks| ==> PositiveFootprintStock(stocks[si])
    ensures GRunInvariant(stocks, run)
    ensures |r.layouts| == |run.layouts| && |r.instructions| == |run.layouts|
    ensures forall a :: 0 <= a < |r.layouts| ==> r.layouts[a] == OutputLayout(run.layouts[a])
    ensures forall si :: 0 <= si < |stocks| ==> CountOf(run.used, si) <= stocks[si].quantity
    ensures forall a :: 0 <= a < |run.layouts| ==> |run.layouts[a].pieces| > 0
    ensures AllPositivePieces(pieces) ==>
              forall a :: 0 <= a < |run.layouts| ==> LayoutFits(run.layouts[a], stocks[run.used[a]])
    ensures UniquePieceIds(pieces) && NoUnderscoreIds(pieces) ==>
              multiset(AllLayoutIds(run.layouts)) + multiset(Ids(run.remaining)) == multiset(Ids(ExpandPieces(pieces))) &&
              NoDuplicates(AllLayoutIds(run.layouts))
    ensures |r.layouts| == 0 ==> r.efficiency == 0.0
    ensures r.totalWaste == 100.0 - r.efficiency && r.totalCost == 0.0
    ensures r.totalCuts == r.summary.totalCuts && r.cuttingTime == r.summary.estimatedTotalTime
    ensures r.cuttingTime == TimePerCut * r.totalCuts
  {
    run := LayoutAll(pieces, stocks);
    var ls := run.layouts;
    var used := TotalCredited(stocks, ls);
    var total := TotalBlockVolume(stocks, ls);
    var efficiency := if total > 0.0 then (used / total) * 100.0 else 0.0;
    SummaryTimeIsEstimate(stocks, ls);
    if UniquePieceIds(pieces) && NoUnderscoreIds(pieces) {
      SubMultisetNoDuplicates(AllLayoutIds(ls), Ids(ExpandPieces(pieces)));
    }
    r := GResult(seq(|ls|, a requires 0 <= a < |ls| => OutputLayout(ls[a])), efficiency, 100.0 - efficiency, 0.0,
                 Instructions(stocks, ls), InstructionSummary(stocks, ls), TotalCuts(ls), EstimateCuttingTime(ls));
  }
}
