/**
  The simulated annealer's search space (`SimulatedAnnealing`): a solution is
  a sequence of placements (assignments of piece instances to stock types),
  its energy is the waste plus penalties for overlapping pairs and
  out-of-bounds pieces, and a neighbour moves, rotates, swaps or re-stocks one
  placement. Every `Math.random()` is an explicit draw in [0, 1).
 */
module AnnealingState {
  import opened Sorting
  import opened Foam
  import opened Geometry
  import opened Assignments
  import opened Layouts

  datatype Solution = Solution(placements: seq<Assignment>, energy: real, efficiency: real, waste: real)

  function PieceDims(p: Piece): Dims {
    Dims(p.length, p.width, p.height)
  }

  /** `getRotatedDimensions(piece, rotation)`. */
  function RotatedPiece(p: Piece, rotation: nat): (d: Dims)
    ensures IsPermutation(d, PieceDims(p)) && DimsVolume(d) == Volume(p)
  {
    RotatedDimensions(PieceDims(p), rotation)
  }

  // ---------------------------------------------------------------------------
  // Energy

  /** The rotation number a reported piece carries, `piece.rotation || 0`. */
  function RotationOf(p: PieceOut): nat {
    match p.rotation
    case Some(r) => r
    case None => 0
  }

  /**
    The box a reported piece occupies, in centimetres, with its ROTATED
    extents; `None` when its identifier names no expanded instance.
   */
  function PlacedBox(expanded: seq<Piece>, p: PieceOut): Option<Box> {
    match FindPiece(expanded, p.pieceId)
    case Some(piece) =>
      var d := RotatedPiece(piece, RotationOf(p));
      Some(Box(p.x / 10.0, p.y / 10.0, p.z / 10.0, d.length, d.width, d.height))
    case None => None
  }

  /** The test inside `calculateOverlapPenalty`. */
  predicate PlacedOverlap(expanded: seq<Piece>, a: PieceOut, b: PieceOut) {
    match (PlacedBox(expanded, a), PlacedBox(expanded, b))
    case (Some(ba), Some(bb)) => Overlapping(ba, bb)
    case _ => false
  }

  /** The test inside `calculateBoundsViolation`: past the far face of the stock, or at a negative coordinate. */
  predicate OutOfBounds(expanded: seq<Piece>, s: Stock, p: PieceOut) {
    match PlacedBox(expanded, p)
    case Some(b) =>
      || b.x + b.length > s.length || b.y + b.width > s.width || b.z + b.height > s.height
      || p.x < 0.0 || p.y < 0.0 || p.z < 0.0
    case None => false
  }

  /** `calculateOverlapPenalty`: the number of unordered overlapping pairs. */
  function OverlapPenalty(expanded: seq<Piece>, ps: seq<PieceOut>): (n: nat)
    ensures n == 0 <==> forall i, j :: 0 <= i < j < |ps| ==> !PlacedOverlap(expanded, ps[i], ps[j])
  {
    var p := (a: PieceOut, b: PieceOut) => PlacedOverlap(expanded, a, b);
    CountPairsZero(ps, p);
    CountPairs(ps, p)
  }

  /** `calculateBoundsViolation`: the number of pieces outside the stock. */
  function BoundsViolation(expanded: seq<Piece>, s: Stock, ps: seq<PieceOut>): (n: nat)
    ensures n <= |ps|
    ensures n == 0 <==> forall i :: 0 <= i < |ps| ==> !OutOfBounds(expanded, s, ps[i])
  {
    CountWhere(ps, (p: PieceOut) => OutOfBounds(expanded, s, p))
  }

  datatype Penalties = Penalties(overlaps: nat, bounds: nat)

  /** The number of pieces over all layouts. */
  function PieceTotal(ls: seq<LayoutOut>): nat {
    if |ls| == 0 then 0 else PieceTotal(ls[..|ls| - 1]) + |ls[|ls| - 1].pieces|
  }

  /**
    The penalty sums of `evaluateSolution`'s `forEach`: only layouts of known
    stock types count, and each piece adds at most one bounds violation.
   */
  function LayoutPenalties(ctx: Context, ls: seq<LayoutOut>): (r: Penalties)
    ensures |ls| == 0 ==> r == Penalties(0, 0)
    ensures r.bounds <= PieceTotal(ls)
  {
    if |ls| == 0 then Penalties(0, 0)
    else
      var t := LayoutPenalties(ctx, ls[..|ls| - 1]);
      var l := ls[|ls| - 1];
      match FindStock(ctx.stocks, l.stockId)
      case Some(s) =>
        Penalties(t.overlaps + OverlapPenalty(ctx.expanded, l.pieces),
                  t.bounds + BoundsViolation(ctx.expanded, s, l.pieces))
      case None => t
  }

  /** A layout of a known stock type is free of overlapping pairs and out-of-bounds pieces. */
  ghost predicate LayoutClean(ctx: Context, l: LayoutOut) {
    match FindStock(ctx.stocks, l.stockId)
    case Some(s) =>
      && (forall i, j :: 0 <= i < j < |l.pieces| ==> !PlacedOverlap(ctx.expanded, l.pieces[i], l.pieces[j]))
      && (forall i :: 0 <= i < |l.pieces| ==> !OutOfBounds(ctx.expanded, s, l.pieces[i]))
    case None => true
  }

  /** Every layout is clean. */
  ghost predicate Clean(ctx: Context, ls: seq<LayoutOut>) {
    forall k :: 0 <= k < |ls| ==> LayoutClean(ctx, ls[k])
  }

  lemma {:induction false} NoPenaltiesIffClean(ctx: Context, ls: seq<LayoutOut>)
    ensures LayoutPenalties(ctx, ls) == Penalties(0, 0) <==> Clean(ctx, ls)
  {
    if |ls| > 0 {
      var p := ls[..|ls| - 1];
      var l := ls[|ls| - 1];
      NoPenaltiesIffClean(ctx, p);
      CleanSplit(ctx, ls);
      LastLayoutPenalties(ctx, ls);
    }
  }

  /** Layouts are clean exactly when all but the last are and the last is. */
  lemma CleanSplit(ctx: Context, ls: seq<LayoutOut>)
    requires |ls| > 0
    ensures Clean(ctx, ls) <==> Clean(ctx, ls[..|ls| - 1]) && LayoutClean(ctx, ls[|ls| - 1])
  {
    var p := ls[..|ls| - 1];
    assert forall k :: 0 <= k < |p| ==> p[k] == ls[k];
  }

  /** The last layout adds no penalty exactly when it is clean. */
  lemma LastLayoutPenalties(ctx: Context, ls: seq<LayoutOut>)
    requires |ls| > 0
    ensures LayoutPenalties(ctx, ls) == Penalties(0, 0) <==>
              LayoutPenalties(ctx, ls[..|ls| - 1]) == Penalties(0, 0) && LayoutClean(ctx, ls[|ls| - 1])
  {
  }

  /** `(100 - efficiency) + overlapPenalty * 100 + boundsViolation * 50`. */
  function Energy(efficiency: real, p: Penalties): (e: real)
    ensures e >= 100.0 - efficiency
    ensures e == 100.0 - efficiency <==> p == Penalties(0, 0)
  {
    (100.0 - efficiency) + (p.overlaps as real) * 100.0 + (p.bounds as real) * 50.0
  }

  /**
    `evaluateSolution`: the placements' layouts give the efficiency, waste
    its complement, and the energy adds the penalties to the waste.
   */
  function Evaluate(ctx: Context, placements: seq<Assignment>): (r: Solution)
    requires AllPositiveStocks(ctx.stocks)
    ensures r.placements == placements
    ensures r.waste == 100.0 - r.efficiency
    ensures r.energy >= r.waste
    ensures r.energy == r.waste <==> Clean(ctx, ToLayouts(ctx, placements, true))
    ensures r.efficiency == Efficiency(LayoutTotals(ctx, ToLayouts(ctx, placements, true)))
  {
    var ls := ToLayouts(ctx, placements, true);
    NoPenaltiesIffClean(ctx, ls);
    var e := Efficiency(LayoutTotals(ctx, ls));
    Solution(placements, Energy(e, LayoutPenalties(ctx, ls)), e, 100.0 - e)
  }

  /** The solution's efficiency is that of the layouts its placements give. */
  predicate Measured(ctx: Context, sol: Solution)
    requires AllPositiveStocks(ctx.stocks)
  {
    sol.efficiency == Efficiency(LayoutTotals(ctx, ToLayouts(ctx, sol.placements, true)))
  }

  /** A measured solution's layouts are consistent, and its efficiency is their volume share. */
  lemma MeasuredLayouts(ctx: Context, sol: Solution)
    requires AllPositiveStocks(ctx.stocks) && Measured(ctx, sol)
    ensures var ls := ToLayouts(ctx, sol.placements, true);
            && (forall k :: 0 <= k < |ls| ==> Consistent(ctx, ls[k]))
            && PercentOf(sol.efficiency, KnownUsedVolume(ctx, ls), KnownStockVolume(ctx, ls))
  {
    ToLayoutsConsistent(ctx, sol.placements, true);
    TotalsAreVolumes(ctx, ToLayouts(ctx, sol.placements, true));
  }

  // ---------------------------------------------------------------------------
  // The initial solution

  /** `(a, b) => volB - volA` as an order: larger volume first. */
  predicate LargerOrEqual(a: Piece, b: Piece) {
    Volume(a) >= Volume(b)
  }

  /** The in-place `sort` of the expanded instances by volume, largest first (stable). */
  function SortByVolume(ps: seq<Piece>): (r: seq<Piece>)
    ensures |r| == |ps| && multiset(r) == multiset(ps)
    ensures forall i, j :: 0 <= i < j < |r| ==> Volume(r[i]) >= Volume(r[j])
  {
    assert TotalPreorder(LargerOrEqual);
    var r := SortBy(ps, LargerOrEqual);
    assert SortedBy(r, LargerOrEqual);
    r
  }

  datatype Corner = Corner(x: real, y: real, z: real)

  predicate ValidCorner(d: Corner) {
    Unit(d.x) && Unit(d.y) && Unit(d.z)
  }

  /** The first stock type, rotation 0, each coordinate a random fraction of the free extent. */
  function InitialPlacement(s: Stock, p: Piece, d: Corner): (a: Assignment)
    requires ValidCorner(d)
    ensures a.pieceId == p.id && a.stockId == s.id && a.rotation == 0
    ensures 0.0 <= a.x <= MaxReal(0.0, s.length - p.length)
    ensures 0.0 <= a.y <= MaxReal(0.0, s.width - p.width)
    ensures 0.0 <= a.z <= MaxReal(0.0, s.height - p.height)
  {
    var dims := RotatedPiece(p, 0);
    Assignment(p.id, s.id, Scale(d.x, MaxReal(0.0, s.length - dims.length)),
               Scale(d.y, MaxReal(0.0, s.width - dims.width)),
               Scale(d.z, MaxReal(0.0, s.height - dims.height)), 0)
  }

  function PieceIdOf(a: Assignment): string {
    a.pieceId
  }

  /**
    `generateInitialSolution`. Its `sort` reorders the engine's expanded list
    in place, so the context it returns (and every later lookup uses) holds
    the sorted list. With no stock type, nothing is placed.
   */
  function InitialSolution(ctx: Context, draws: seq<Corner>): (r: (Context, Solution))
    requires AllPositiveStocks(ctx.stocks)
    requires |draws| == |ctx.expanded| && forall i :: 0 <= i < |draws| ==> ValidCorner(draws[i])
    ensures r.0.stocks == ctx.stocks && multiset(r.0.expanded) == multiset(ctx.expanded)
    ensures |ctx.stocks| == 0 ==> r.1.placements == []
    ensures |ctx.stocks| > 0 ==>
              && multiset(MapSeq(r.1.placements, PieceIdOf)) == multiset(Ids(ctx.expanded))
              && forall i :: 0 <= i < |r.1.placements| ==>
                   r.1.placements[i].stockId == ctx.stocks[0].id && r.1.placements[i].rotation == 0
    ensures |r.1.placements| == if |ctx.stocks| > 0 then |ctx.expanded| else 0
    ensures r.0.expanded == SortByVolume(ctx.expanded)
    ensures |ctx.stocks| > 0 ==> forall i :: 0 <= i < |r.1.placements| ==>
              r.1.placements[i] == InitialPlacement(ctx.stocks[0], r.0.expanded[i], draws[i])
    ensures Evaluated(r.1) && Measured(r.0, r.1)
  {
    var sorted := SortByVolume(ctx.expanded);
    var ctx' := ctx.(expanded := sorted);
    var placements :=
      if |ctx.stocks| == 0 then []
      else seq(|sorted|, i requires 0 <= i < |sorted| => InitialPlacement(ctx.stocks[0], sorted[i], draws[i]));
    if |ctx.stocks| > 0 then
      assert MapSeq(placements, PieceIdOf) == Ids(sorted);
      IdsOfPermutation(sorted, ctx.expanded);
      (ctx', Evaluate(ctx', placements))
    else
      (ctx', Evaluate(ctx', placements))
  }

  // ---------------------------------------------------------------------------
  // Neighbour moves

  /** The draws one `generateNeighbor` call may consume. */
  datatype NeighborDraw = NeighborDraw(kind: real, index: real, dx: real, dy: real, dz: real,
                                       rotation: real, second: real, stock: real)

  predicate ValidNeighborDraw(d: NeighborDraw) {
    && Unit(d.kind) && Unit(d.index) && Unit(d.dx) && Unit(d.dy) && Unit(d.dz)
    && Unit(d.rotation) && Unit(d.second) && Unit(d.stock)
  }

  /**
    `swapPieces` redraws its second index until it differs from the first;
    `second` stands for the draw that ended that loop.
   */
  predicate SwapDrawsDistinct(d: NeighborDraw, n: nat)
    requires ValidNeighborDraw(d)
  {
    n >= 2 ==> Index(d.index, n) != Index(d.second, n)
  }

  /** `b` lies in the part of stock `s` where a box of extents `e` starts without sticking out (the origin when there is none). */
  predicate StartsInside(b: Assignment, s: Stock, e: Dims) {
    && 0.0 <= b.x <= MaxReal(0.0, s.length - e.length)
    && 0.0 <= b.y <= MaxReal(0.0, s.width - e.width)
    && 0.0 <= b.z <= MaxReal(0.0, s.height - e.height)
  }

  /**
    Each coordinate of `b` lies within `r` of `a`'s, for every coordinate of
    `a` that already lies where a box of extents `e` starts inside stock `s`.
   */
  predicate NudgedWithin(a: Assignment, b: Assignment, s: Stock, e: Dims, r: real) {
    && (0.0 <= a.x <= MaxReal(0.0, s.length - e.length) ==> Near(a.x, b.x, r))
    && (0.0 <= a.y <= MaxReal(0.0, s.width - e.width) ==> Near(a.y, b.y, r))
    && (0.0 <= a.z <= MaxReal(0.0, s.height - e.height) ==> Near(a.z, b.z, r))
  }

  /**
    What `movePiece` does to a placement: piece, stock and rotation are kept.
    With stock type and piece found, the placement ends where the rotated
    piece starts inside the stock, at most 15 from where it was along each
    axis it was already inside on; otherwise it is left as it was.
   */
  ghost predicate Moved(ctx: Context, a: Assignment, b: Assignment) {
    && b.pieceId == a.pieceId && b.stockId == a.stockId && b.rotation == a.rotation
    && match (FindStock(ctx.stocks, a.stockId), FindPiece(ctx.expanded, a.pieceId))
       case (Some(s), Some(p)) =>
         var e := RotatedPiece(p, a.rotation);
         StartsInside(b, s, e) && NudgedWithin(a, b, s, e, 15.0)
       case _ => b == a
  }

  /** `Math.min(max, Math.max(0, v))` with `max = Math.max(0, extent)`. */
  function ClampInto(extent: real, v: real): (r: real)
    ensures 0.0 <= r <= MaxReal(0.0, extent)
    ensures 0.0 <= v <= extent ==> r == v
    ensures v <= 0.0 ==> r == 0.0
    ensures v >= MaxReal(0.0, extent) ==> r == MaxReal(0.0, extent)
    ensures ClampedTo(extent, v, r)
  {
    MinReal(MaxReal(0.0, extent), MaxReal(0.0, v))
  }

  /** `movePiece` clamps max-of-min, `rotatePiece` min-of-max: the two orders agree on every input. */
  lemma ClampOrdersAgree(extent: real, v: real)
    ensures ClampInto(extent, v) == Clamp(extent, v)
  {
  }

  /** Clamping never takes a value further from a point that lies inside the interval. */
  lemma ClampIntoNear(extent: real, v0: real, v: real, r: real)
    requires Near(v0, v, r)
    ensures 0.0 <= v0 <= MaxReal(0.0, extent) ==> Near(v0, ClampInto(extent, v), r)
  {
  }

  function MovePlacement(ctx: Context, a: Assignment, d: NeighborDraw): (b: Assignment)
    requires ValidNeighborDraw(d)
    ensures Moved(ctx, a, b)
  {
    match (FindStock(ctx.stocks, a.stockId), FindPiece(ctx.expanded, a.pieceId))
    case (Some(s), Some(p)) =>
      var e := RotatedPiece(p, a.rotation);
      ClampIntoNear(s.length - e.length, a.x, a.x + (d.dx - 0.5) * 30.0, 15.0);
      ClampIntoNear(s.width - e.width, a.y, a.y + (d.dy - 0.5) * 30.0, 15.0);
      ClampIntoNear(s.height - e.height, a.z, a.z + (d.dz - 0.5) * 30.0, 15.0);
      a.(x := ClampInto(s.length - e.length, a.x + (d.dx - 0.5) * 30.0),
         y := ClampInto(s.width - e.width, a.y + (d.dy - 0.5) * 30.0),
         z := ClampInto(s.height - e.height, a.z + (d.dz - 0.5) * 30.0))
    case _ => a
  }

  /** What `rotatePiece` does to a placement: a new rotation number, coordinates clamped into the stock for it. */
  ghost predicate Rotated(ctx: Context, a: Assignment, b: Assignment) {
    && b.pieceId == a.pieceId && b.stockId == a.stockId && b.rotation < 8
    && match (FindStock(ctx.stocks, a.stockId), FindPiece(ctx.expanded, a.pieceId))
       case (Some(s), Some(p)) =>
         var e := RotatedPiece(p, b.rotation);
         && 0.0 <= b.x && (s.length - e.length >= 0.0 ==> b.x <= s.length - e.length)
         && 0.0 <= b.y && (s.width - e.width >= 0.0 ==> b.y <= s.width - e.width)
         && 0.0 <= b.z && (s.height - e.height >= 0.0 ==> b.z <= s.height - e.height)
         && (0.0 <= a.x <= s.length - e.length ==> b.x == a.x)
         && (0.0 <= a.y <= s.width - e.width ==> b.y == a.y)
         && (0.0 <= a.z <= s.height - e.height ==> b.z == a.z)
         && ClampedTo(s.length - e.length, a.x, b.x)
         && ClampedTo(s.width - e.width, a.y, b.y)
         && ClampedTo(s.height - e.height, a.z, b.z)
       case _ => b.x == a.x && b.y == a.y && b.z == a.z
  }

  function RotatePlacement(ctx: Context, a: Assignment, d: NeighborDraw): (b: Assignment)
    requires ValidNeighborDraw(d)
    ensures Rotated(ctx, a, b)
    ensures b.rotation == Index(d.rotation, 8)
  {
    var a' := a.(rotation := Index(d.rotation, 8));
    match (FindStock(ctx.stocks, a.stockId), FindPiece(ctx.expanded, a.pieceId))
    case (Some(s), Some(p)) =>
      var e := RotatedPiece(p, a'.rotation);
      a'.(x := Clamp(s.length - e.length, a.x), y := Clamp(s.width - e.width, a.y), z := Clamp(s.height - e.height, a.z))
    case _ => a'
  }

  /** The rotated piece fits inside the stock along every axis. */
  predicate FitsWithin(s: Stock, e: Dims) {
    s.length >= e.length && s.width >= e.width && s.height >= e.height
  }

  /**
    What `moveToAnotherStock` does to a placement given stock type `s`:
    piece and rotation are kept. When the piece is found and, rotated, fits
    inside `s`, the placement moves to `s` where the piece starts inside it;
    otherwise it is left as it was.
   */
  predicate Restocked(ctx: Context, a: Assignment, s: Stock, b: Assignment) {
    && b.pieceId == a.pieceId && b.rotation == a.rotation
    && match FindPiece(ctx.expanded, a.pieceId)
       case Some(p) =>
         var e := RotatedPiece(p, a.rotation);
         if FitsWithin(s, e) then b.stockId == s.id && StartsInside(b, s, e) else b == a
       case None => b == a
  }

  /** `moveToAnotherStock` on one placement, given the drawn stock type. */
  function RestockPlacement(ctx: Context, a: Assignment, s: Stock, d: NeighborDraw): (b: Assignment)
    requires ValidNeighborDraw(d)
    ensures Restocked(ctx, a, s, b)
  {
    match FindPiece(ctx.expanded, a.pieceId)
    case Some(p) =>
      var e := RotatedPiece(p, a.rotation);
      if FitsWithin(s, e) then
        a.(stockId := s.id, x := Scale(d.dx, s.length - e.length), y := Scale(d.dy, s.width - e.width),
           z := Scale(d.dz, s.height - e.height))
      else a
    case None => a
  }

  /** The index every single-placement move draws first. */
  function Chosen(pl: seq<Assignment>, d: NeighborDraw): nat
    requires ValidNeighborDraw(d)
  {
    Index(d.index, |pl|)
  }

  /** Replaces the chosen placement; every other placement stays as it was. */
  function ReplaceChosen(pl: seq<Assignment>, d: NeighborDraw, b: Assignment): (r: seq<Assignment>)
    requires ValidNeighborDraw(d) && |pl| > 0
    ensures |r| == |pl| && r[Chosen(pl, d)] == b
    ensures forall j :: 0 <= j < |pl| && j != Chosen(pl, d) ==> r[j] == pl[j]
  {
    pl[Chosen(pl, d) := b]
  }

  /** `swapPieces`: a no-op below two placements, else the two drawn positions exchange their placements. */
  function SwapPlacements(pl: seq<Assignment>, d: NeighborDraw): (r: seq<Assignment>)
    requires ValidNeighborDraw(d) && SwapDrawsDistinct(d, |pl|)
    ensures |r| == |pl| && multiset(r) == multiset(pl)
    ensures |pl| < 2 ==> r == pl
    ensures |pl| >= 2 ==>
              var i, j := Index(d.index, |pl|), Index(d.second, |pl|);
              && r[i] == pl[j] && r[j] == pl[i]
              && forall k :: 0 <= k < |pl| && k != i && k != j ==> r[k] == pl[k]
  {
    if |pl| < 2 then pl
    else
      var i, j := Index(d.index, |pl|), Index(d.second, |pl|);
      SwapMultiset(pl, i, j);
      pl[i := pl[j]][j := pl[i]]
  }

  /** `moveToAnotherStock` dereferences the drawn stock type only for a placement whose piece is found; with none it throws. */
  predicate RestockDefined(ctx: Context, pl: seq<Assignment>, d: NeighborDraw)
    requires ValidNeighborDraw(d)
  {
    |pl| > 0 && FindPiece(ctx.expanded, pl[Chosen(pl, d)].pieceId).Some? ==> |ctx.stocks| > 0
  }

  /**
    The placements of `generateNeighbor`'s copy after the move `kind`
    selects: below 0.4 a nudge, below 0.7 a new rotation, below 0.9 a swap,
    otherwise a new stock type. The three single-placement moves do nothing
    to an empty solution.
   */
  function NeighborPlacements(ctx: Context, pl: seq<Assignment>, d: NeighborDraw): (r: seq<Assignment>)
    requires ValidNeighborDraw(d) && SwapDrawsDistinct(d, |pl|) && RestockDefined(ctx, pl, d)
    ensures |r| == |pl|
    ensures multiset(MapSeq(r, PieceIdOf)) == multiset(MapSeq(pl, PieceIdOf))
    ensures (d.kind < 0.7 || d.kind >= 0.9) ==> forall j :: 0 <= j < |pl| && j != Chosen(pl, d) ==> r[j] == pl[j]
    ensures d.kind < 0.4 && |pl| > 0 ==> Moved(ctx, pl[Chosen(pl, d)], r[Chosen(pl, d)])
    ensures 0.4 <= d.kind < 0.7 && |pl| > 0 ==> Rotated(ctx, pl[Chosen(pl, d)], r[Chosen(pl, d)])
    ensures 0.7 <= d.kind < 0.9 ==> multiset(r) == multiset(pl)
    ensures d.kind >= 0.9 && |pl| > 0 ==>
              var a, b := pl[Chosen(pl, d)], r[Chosen(pl, d)];
              if |ctx.stocks| > 0 then Restocked(ctx, a, ctx.stocks[Index(d.stock, |ctx.stocks|)], b) else b == a
  {
    if 0.7 <= d.kind < 0.9 then
      var r := SwapPlacements(pl, d);
      MapSeqPermutation(r, pl, PieceIdOf);
      r
    else if |pl| == 0 then pl
    else
      var a := pl[Chosen(pl, d)];
      var b :=
        if d.kind < 0.4 then MovePlacement(ctx, a, d)
        else if d.kind < 0.7 then RotatePlacement(ctx, a, d)
        else if FindPiece(ctx.expanded, a.pieceId).None? then a
        else RestockPlacement(ctx, a, ctx.stocks[Index(d.stock, |ctx.stocks|)], d);
      var r := ReplaceChosen(pl, d, b);
      assert MapSeq(r, PieceIdOf) == MapSeq(pl, PieceIdOf);
      r
  }

  /** `generateNeighbor`: the moved copy, re-evaluated. */
  function Neighbor(ctx: Context, sol: Solution, d: NeighborDraw): (r: Solution)
    requires AllPositiveStocks(ctx.stocks)
    requires ValidNeighborDraw(d) && SwapDrawsDistinct(d, |sol.placements|) && RestockDefined(ctx, sol.placements, d)
    ensures |r.placements| == |sol.placements|
    ensures multiset(MapSeq(r.placements, PieceIdOf)) == multiset(MapSeq(sol.placements, PieceIdOf))
    ensures Evaluated(r) && Measured(ctx, r)
  {
    Evaluate(ctx, NeighborPlacements(ctx, sol.placements, d))
  }

  /** What `evaluateSolution` leaves in a solution: waste the complement of efficiency, energy at least the waste. */
  predicate Evaluated(sol: Solution) {
    sol.waste == 100.0 - sol.efficiency && sol.energy >= sol.waste
  }
}
