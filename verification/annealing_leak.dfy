/**
  A concrete rejected nudge for the object sharing of `generateNeighbor`.
  Two 10 cm cubes lie side by side in one 100 cm block, cube `a` at x = 0 and
  cube `b` at x = 20. The nudge moves cube `b` to x = 5, onto cube `a`. The
  overlap raises the energy by 100, so with a failed Metropolis coin the
  intended loop rejects the move. The loop as written still sees cube `b` at
  x = 5 in its current solution.
 */
module AnnealingLeak {
  import opened Foam
  import opened Geometry
  import opened Assignments
  import opened Grouping
  import opened Layouts
  import opened AnnealingState
  import opened Annealing

  /** A 10 cm cube instance. */
  function Cube(id: string): Piece {
    Piece(id, 10.0, 10.0, 10.0, 1, "", None)
  }

  /** One 100 cm stock type and two cube instances, `a` and `b`. */
  function TwoCubes(): Context {
    Context([Stock("s", 100.0, 100.0, 100.0, 1, "", None)], [Cube("a"), Cube("b")])
  }

  /** What the lemmas below use of the context: the stock type `s` and the cubes `a` and `b` are found. */
  predicate CubeSetup(ctx: Context) {
    && AllPositiveStocks(ctx.stocks) && |ctx.stocks| > 0
    && FindStock(ctx.stocks, "s") == Some(ctx.stocks[0])
    && ctx.stocks[0].length == 100.0 && ctx.stocks[0].width == 100.0 && ctx.stocks[0].height == 100.0
    && FindPiece(ctx.expanded, "a") == Some(Cube("a"))
    && FindPiece(ctx.expanded, "b") == Some(Cube("b"))
  }

  function CubeA(): Assignment {
    Assignment("a", "s", 0.0, 0.0, 0.0, 0)
  }

  function CubeB(x: real): Assignment {
    Assignment("b", "s", x, 0.0, 0.0, 0)
  }

  /** Draws 0.0 (a nudge), 0.5 (the second placement), 0.0 along x (a step of -15), and a failed coin. */
  function NudgeDraw(): AnnealDraw {
    AnnealDraw(NeighborDraw(0.0, 0.5, 0.0, 0.5, 0.5, 0.0, 0.0, 0.0), false)
  }

  lemma TwoCubesSetup()
    ensures CubeSetup(TwoCubes())
  {
  }

  /** A cube keeps its extents at rotation 0. */
  lemma CubeUnrotated(id: string)
    ensures RotatedPiece(Cube(id), 0) == Dims(10.0, 10.0, 10.0)
  {
  }

  /** Two assignments to the same stock type form one group. */
  lemma OneGroup(a: Assignment, b: Assignment)
    requires a.stockId == "s" && b.stockId == "s"
    ensures GroupByStock([a, b]) == [Group("s", [a, b])]
  {
    assert [a, b][..1] == [a];
    assert GroupByStock([a]) == [Group("s", [a])] by {
      assert [a][..0] == [];
    }
    var g := [Group("s", [a])];
    assert GroupIndex(g, b.stockId) == 0;
    assert [a] + [b] == [a, b];
    assert g[0 := g[0].(members := g[0].members + [b])] == [Group("s", [a, b])];
  }

  lemma OneLayout(ctx: Context, a: Assignment, b: Assignment)
    requires CubeSetup(ctx) && a.stockId == "s" && b.stockId == "s"
    ensures var ls := ToLayouts(ctx, [a, b], true);
            |ls| == 1 && ls[0].stockId == "s" && ls[0].pieces == [ToPieceOut(a, true), ToPieceOut(b, true)]
  {
    OneGroup(a, b);
  }

  /** A cube at rotation 0 occupies the 10 cm box at its position. */
  lemma CubeBox(ctx: Context, a: Assignment)
    requires CubeSetup(ctx) && (a.pieceId == "a" || a.pieceId == "b") && a.rotation == 0
    ensures PlacedBox(ctx.expanded, ToPieceOut(a, true)) == Some(Box(a.x, a.y, a.z, 10.0, 10.0, 10.0))
  {
    var p := ToPieceOut(a, true);
    assert FindPiece(ctx.expanded, p.pieceId) == Some(Cube(a.pieceId));
    CubeUnrotated(a.pieceId);
    assert RotationOf(p) == 0;
  }

  lemma OverlapAt5(ctx: Context)
    requires CubeSetup(ctx)
    ensures PlacedOverlap(ctx.expanded, ToPieceOut(CubeA(), true), ToPieceOut(CubeB(5.0), true))
  {
    CubeBox(ctx, CubeA());
    CubeBox(ctx, CubeB(5.0));
    assert Overlapping(Box(0.0, 0.0, 0.0, 10.0, 10.0, 10.0), Box(5.0, 0.0, 0.0, 10.0, 10.0, 10.0));
  }

  lemma ApartAt20(ctx: Context)
    requires CubeSetup(ctx)
    ensures !PlacedOverlap(ctx.expanded, ToPieceOut(CubeA(), true), ToPieceOut(CubeB(20.0), true))
  {
    CubeBox(ctx, CubeA());
    CubeBox(ctx, CubeB(20.0));
    assert !Overlapping(Box(0.0, 0.0, 0.0, 10.0, 10.0, 10.0), Box(20.0, 0.0, 0.0, 10.0, 10.0, 10.0));
  }

  lemma InBoundsAt(ctx: Context, a: Assignment)
    requires CubeSetup(ctx) && (a == CubeA() || a == CubeB(20.0))
    ensures !OutOfBounds(ctx.expanded, ctx.stocks[0], ToPieceOut(a, true))
  {
    CubeBox(ctx, a);
  }

  /** The used volume depends on which instances a layout holds, not on where they lie. */
  lemma {:induction false} UsedVolumeByIds(expanded: seq<Piece>, ps: seq<PieceOut>, qs: seq<PieceOut>)
    requires |ps| == |qs| && forall i :: 0 <= i < |ps| ==> ps[i].pieceId == qs[i].pieceId
    ensures UsedVolume(expanded, ps) == UsedVolume(expanded, qs)
  {
    if |ps| > 0 {
      UsedVolumeByIds(expanded, ps[..|ps| - 1], qs[..|qs| - 1]);
    }
  }

  /** One overlapping pair makes a layout of a known stock type unclean. */
  lemma OverlapNotClean(ctx: Context, l: LayoutOut, i: nat, j: nat)
    requires FindStock(ctx.stocks, l.stockId).Some? && i < j < |l.pieces|
    requires PlacedOverlap(ctx.expanded, l.pieces[i], l.pieces[j])
    ensures !LayoutClean(ctx, l)
  {
  }

  /** Two pieces that lie inside their known stock type and apart make a clean layout. */
  lemma TwoApartClean(ctx: Context, l: LayoutOut, s: Stock)
    requires FindStock(ctx.stocks, l.stockId) == Some(s) && |l.pieces| == 2
    requires !OutOfBounds(ctx.expanded, s, l.pieces[0]) && !OutOfBounds(ctx.expanded, s, l.pieces[1])
    requires !PlacedOverlap(ctx.expanded, l.pieces[0], l.pieces[1])
    ensures LayoutClean(ctx, l)
  {
    forall i, j | 0 <= i < j < |l.pieces|
      ensures !PlacedOverlap(ctx.expanded, l.pieces[i], l.pieces[j])
    {
      assert i == 0 && j == 1;
    }
  }

  /** Side by side, the cubes draw no penalty. */
  lemma CleanAt20(ctx: Context)
    requires CubeSetup(ctx)
    ensures Clean(ctx, ToLayouts(ctx, [CubeA(), CubeB(20.0)], true))
  {
    OneLayout(ctx, CubeA(), CubeB(20.0));
    var l := ToLayouts(ctx, [CubeA(), CubeB(20.0)], true)[0];
    InBoundsAt(ctx, CubeA());
    InBoundsAt(ctx, CubeB(20.0));
    ApartAt20(ctx);
    TwoApartClean(ctx, l, ctx.stocks[0]);
  }

  /** With cube `b` at x = 5, the cubes overlap. */
  lemma NotCleanAt5(ctx: Context)
    requires CubeSetup(ctx)
    ensures !Clean(ctx, ToLayouts(ctx, [CubeA(), CubeB(5.0)], true))
  {
    OneLayout(ctx, CubeA(), CubeB(5.0));
    OverlapAt5(ctx);
    OverlapNotClean(ctx, ToLayouts(ctx, [CubeA(), CubeB(5.0)], true)[0], 0, 1);
  }

  /** One layout each, same stock type and same utilization: the same totals. */
  lemma SingleLayoutTotals(ctx: Context, l: seq<LayoutOut>, m: seq<LayoutOut>)
    requires AllPositiveStocks(ctx.stocks) && |l| == 1 && |m| == 1
    requires l[0].stockId == m[0].stockId && l[0].utilization == m[0].utilization
    ensures LayoutTotals(ctx, l) == LayoutTotals(ctx, m)
  {
    assert l[..0] == m[..0];
  }

  lemma SameTotals(ctx: Context)
    requires CubeSetup(ctx)
    ensures LayoutTotals(ctx, ToLayouts(ctx, [CubeA(), CubeB(5.0)], true))
         == LayoutTotals(ctx, ToLayouts(ctx, [CubeA(), CubeB(20.0)], true))
  {
    OneLayout(ctx, CubeA(), CubeB(5.0));
    OneLayout(ctx, CubeA(), CubeB(20.0));
    var p5 := [ToPieceOut(CubeA(), true), ToPieceOut(CubeB(5.0), true)];
    var p20 := [ToPieceOut(CubeA(), true), ToPieceOut(CubeB(20.0), true)];
    UsedVolumeByIds(ctx.expanded, p5, p20);
    var l5, l20 := ToLayouts(ctx, [CubeA(), CubeB(5.0)], true), ToLayouts(ctx, [CubeA(), CubeB(20.0)], true);
    assert l5[0].utilization == l20[0].utilization;
    SingleLayoutTotals(ctx, l5, l20);
  }

  /** The efficiency is the same in both positions, and the overlap adds to the energy. */
  lemma OverlapRaisesEnergy(ctx: Context)
    requires CubeSetup(ctx)
    ensures Evaluate(ctx, [CubeA(), CubeB(5.0)]).energy > Evaluate(ctx, [CubeA(), CubeB(20.0)]).energy
  {
    CleanAt20(ctx);
    NotCleanAt5(ctx);
    SameTotals(ctx);
  }

  /** The nudge moves cube `b` from x = 20 by -15 to x = 5, inside the block. */
  lemma NudgeMoves(ctx: Context)
    requires CubeSetup(ctx)
    ensures ValidNeighborDraw(NudgeDraw().move)
    ensures MovePlacement(ctx, CubeB(20.0), NudgeDraw().move) == CubeB(5.0)
  {
    CubeUnrotated("b");
  }

  /** The draw picks the second placement, so the neighbour has cube `b` on cube `a`. */
  lemma NudgeOntoCubeA(ctx: Context)
    requires CubeSetup(ctx)
    ensures ValidNeighborDraw(NudgeDraw().move) && SwapDrawsDistinct(NudgeDraw().move, 2)
    ensures NeighborPlacements(ctx, [CubeA(), CubeB(20.0)], NudgeDraw().move) == [CubeA(), CubeB(5.0)]
  {
    NudgeMoves(ctx);
    assert Index(0.5, 2) == 1;
    assert Index(0.0, 2) == 0;
  }

  /** The state before the step: cube `b` at x = 20, evaluated, at the initial temperature. */
  function Before(ctx: Context): AnnealState
    requires AllPositiveStocks(ctx.stocks)
  {
    var sol := Evaluate(ctx, [CubeA(), CubeB(20.0)]);
    AnnealState(sol, sol, InitialTemperature, 0, 0, 0, [])
  }

  /**
    The rejected nudge in any context where the stock type and the two cubes
    are found: the step's preconditions hold, the intended step keeps the
    current solution, and the step as written leaves cube `b` at x = 5.
   */
  lemma RejectedNudgeAt(ctx: Context)
    requires CubeSetup(ctx)
    ensures Drawable(ctx, Before(ctx), NudgeDraw())
    ensures Step(ctx, Before(ctx), NudgeDraw()).current == Before(ctx).current
    ensures StepAsWritten(ctx, Before(ctx), NudgeDraw()).current.placements == [CubeA(), CubeB(5.0)]
    ensures StepAsWritten(ctx, Before(ctx), NudgeDraw()).current.placements != Before(ctx).current.placements
  {
    var st := Before(ctx);
    NudgeOntoCubeA(ctx);
    OverlapRaisesEnergy(ctx);
    assert Neighbor(ctx, st.current, NudgeDraw().move).placements == [CubeA(), CubeB(5.0)];
    assert CubeB(5.0) != CubeB(20.0);
  }

  /** The same for the two cubes in one 100 cm block. */
  lemma RejectedNudgeExample()
    ensures AllPositiveStocks(TwoCubes().stocks) && Drawable(TwoCubes(), Before(TwoCubes()), NudgeDraw())
    ensures Step(TwoCubes(), Before(TwoCubes()), NudgeDraw()).current == Before(TwoCubes()).current
    ensures StepAsWritten(TwoCubes(), Before(TwoCubes()), NudgeDraw()).current.placements == [CubeA(), CubeB(5.0)]
  {
    TwoCubesSetup();
    RejectedNudgeAt(TwoCubes());
  }
}
