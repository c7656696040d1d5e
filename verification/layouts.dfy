/**
  The layout objects both engines report (one per stock type, pieces in
  millimetres), the volume totals and efficiency derived from them, and the
  pair and element counters behind the overlap and bounds checks.
 */
module Layouts {
  import opened Sorting
  import opened Foam
  import opened Geometry
  import opened Assignments
  import opened Grouping

  // ---------------------------------------------------------------------------
  // Layout objects

  /** A placed piece as the engines report it: coordinates in millimetres, `rotated` when the rotation number is positive; the annealer also keeps the number. */
  datatype PieceOut = PieceOut(pieceId: string, x: real, y: real, z: real, rotated: bool, rotation: Option<nat>)

  datatype LayoutOut = LayoutOut(stockId: string, pieces: seq<PieceOut>, utilization: real)

  function ToPieceOut(a: Assignment, keepRotation: bool): (p: PieceOut)
    ensures p.x / 10.0 == a.x && p.y / 10.0 == a.y && p.z / 10.0 == a.z
    ensures p.pieceId == a.pieceId && (p.rotated <==> a.rotation > 0)
    ensures keepRotation <==> p.rotation == Some(a.rotation)
  {
    PieceOut(a.pieceId, a.x * 10.0, a.y * 10.0, a.z * 10.0, a.rotation > 0,
             if keepRotation then Some(a.rotation) else None)
  }

  /** The volume of the first expanded instance with this identifier, 0 when there is none. */
  function InstanceVolume(expanded: seq<Piece>, id: string): real {
    match FindPiece(expanded, id)
    case Some(p) => Volume(p)
    case None => 0.0
  }

  /** The `reduce` summing the instance volumes of a layout's pieces. */
  function UsedVolume(expanded: seq<Piece>, ps: seq<PieceOut>): real {
    if |ps| == 0 then 0.0
    else UsedVolume(expanded, ps[..|ps| - 1]) + InstanceVolume(expanded, ps[|ps| - 1].pieceId)
  }

  /** Utilization of a group: used over stock volume in percent when the stock type is known, else the initial 0. */
  function GroupUtilization(ctx: Context, id: string, ps: seq<PieceOut>): (u: real)
    requires AllPositiveStocks(ctx.stocks)
    ensures FindStock(ctx.stocks, id).Some? ==>
              u * StockVolume(FindStock(ctx.stocks, id).value) == 100.0 * UsedVolume(ctx.expanded, ps)
    ensures FindStock(ctx.stocks, id).None? ==> u == 0.0
  {
    match FindStock(ctx.stocks, id)
    case Some(s) =>
      PositiveStockVolume(s);
      (UsedVolume(ctx.expanded, ps) / StockVolume(s)) * 100.0
    case None => 0.0
  }

  function GroupToLayout(ctx: Context, g: Group, keepRotation: bool): (l: LayoutOut)
    requires AllPositiveStocks(ctx.stocks)
  {
    var ps := MapSeq(g.members, (a: Assignment) => ToPieceOut(a, keepRotation));
    LayoutOut(g.stockId, ps, GroupUtilization(ctx, g.stockId, ps))
  }

  /** `genesToLayouts` / `solutionToLayouts`. */
  function ToLayouts(ctx: Context, xs: seq<Assignment>, keepRotation: bool): (r: seq<LayoutOut>)
    requires AllPositiveStocks(ctx.stocks)
    ensures |r| == |GroupByStock(xs)|
    ensures forall k :: 0 <= k < |r| ==>
              && r[k].stockId == GroupByStock(xs)[k].stockId
              && |r[k].pieces| == |GroupByStock(xs)[k].members|
              && forall m :: 0 <= m < |r[k].pieces| ==>
                   r[k].pieces[m] == ToPieceOut(GroupByStock(xs)[k].members[m], keepRotation)
  {
    var g := GroupByStock(xs);
    seq(|g|, k requires 0 <= k < |g| => GroupToLayout(ctx, g[k], keepRotation))
  }

  /** Every reported piece is one assignment scaled to millimetres, in the layout of its own stock type. */
  lemma ToLayoutsScale(ctx: Context, xs: seq<Assignment>, keepRotation: bool, k: nat, m: nat)
    requires AllPositiveStocks(ctx.stocks)
    requires k < |ToLayouts(ctx, xs, keepRotation)| && m < |ToLayouts(ctx, xs, keepRotation)[k].pieces|
    ensures exists i :: 0 <= i < |xs| && xs[i].stockId == ToLayouts(ctx, xs, keepRotation)[k].stockId &&
              ToLayouts(ctx, xs, keepRotation)[k].pieces[m] == ToPieceOut(xs[i], keepRotation)
  {
    var g := GroupByStock(xs)[k];
    GroupsHomogeneous(xs, k);
    var a := g.members[m];
    assert a in multiset(xs);
    var i :| 0 <= i < |xs| && xs[i] == a;
  }

  // ---------------------------------------------------------------------------
  // Volume totals over layouts

  datatype Totals = Totals(stockVolume: real, usedVolume: real)

  /** One step of the `forEach` over layouts: a layout whose stock type is known adds its stock volume and `stockVolume * utilization / 100`. */
  function AddLayout(ctx: Context, t: Totals, l: LayoutOut): Totals
    requires AllPositiveStocks(ctx.stocks)
  {
    match FindStock(ctx.stocks, l.stockId)
    case Some(s) => Totals(t.stockVolume + StockVolume(s), t.usedVolume + StockVolume(s) * l.utilization / 100.0)
    case None => t
  }

  /** The `forEach` over layouts. */
  function LayoutTotals(ctx: Context, ls: seq<LayoutOut>): (t: Totals)
    requires AllPositiveStocks(ctx.stocks)
  {
    if |ls| == 0 then Totals(0.0, 0.0)
    else AddLayout(ctx, LayoutTotals(ctx, ls[..|ls| - 1]), ls[|ls| - 1])
  }

  /** The stock volume of a layout's stock type when it is known, and the instance volume the layout holds then. */
  function KnownStock(ctx: Context, l: LayoutOut): real {
    match FindStock(ctx.stocks, l.stockId) case Some(s) => StockVolume(s) case None => 0.0
  }

  function KnownUsed(ctx: Context, l: LayoutOut): real {
    if FindStock(ctx.stocks, l.stockId).Some? then UsedVolume(ctx.expanded, l.pieces) else 0.0
  }

  /** The volume of the stock types the layouts use, and the instance volume they hold. */
  function KnownStockVolume(ctx: Context, ls: seq<LayoutOut>): real {
    if |ls| == 0 then 0.0 else KnownStockVolume(ctx, ls[..|ls| - 1]) + KnownStock(ctx, ls[|ls| - 1])
  }

  function KnownUsedVolume(ctx: Context, ls: seq<LayoutOut>): real {
    if |ls| == 0 then 0.0 else KnownUsedVolume(ctx, ls[..|ls| - 1]) + KnownUsed(ctx, ls[|ls| - 1])
  }

  predicate Consistent(ctx: Context, l: LayoutOut)
    requires AllPositiveStocks(ctx.stocks)
  {
    l.utilization == GroupUtilization(ctx, l.stockId, l.pieces)
  }

  /** A layout whose utilization was computed from its pieces adds its stock volume and the instance volume it holds. */
  lemma AddLayoutVolumes(ctx: Context, t: Totals, l: LayoutOut)
    requires AllPositiveStocks(ctx.stocks) && Consistent(ctx, l)
    ensures AddLayout(ctx, t, l) == Totals(t.stockVolume + KnownStock(ctx, l), t.usedVolume + KnownUsed(ctx, l))
  {
    match FindStock(ctx.stocks, l.stockId)
    case Some(s) =>
      UndoPercentage(StockVolume(s), l.utilization, UsedVolume(ctx.expanded, l.pieces));
    case None =>
  }

  /**
    For layouts whose utilization was computed from their pieces, the running
    totals are the stock volume of the known stock types and the instance
    volume they hold: multiplying back by the stock volume undoes the percentage.
   */
  lemma {:induction false} TotalsAreVolumes(ctx: Context, ls: seq<LayoutOut>)
    requires AllPositiveStocks(ctx.stocks)
    requires forall k :: 0 <= k < |ls| ==> Consistent(ctx, ls[k])
    ensures LayoutTotals(ctx, ls) == Totals(KnownStockVolume(ctx, ls), KnownUsedVolume(ctx, ls))
  {
    if |ls| > 0 {
      var p := ls[..|ls| - 1];
      assert forall k :: 0 <= k < |p| ==> Consistent(ctx, p[k]) by {
        forall k | 0 <= k < |p| ensures Consistent(ctx, p[k]) {
          assert p[k] == ls[k];
        }
      }
      TotalsAreVolumes(ctx, p);
      AddLayoutVolumes(ctx, LayoutTotals(ctx, p), ls[|ls| - 1]);
    }
  }

  lemma UndoPercentage(sv: real, u: real, used: real)
    requires u * sv == 100.0 * used
    ensures sv * u / 100.0 == used
  {
  }

  lemma ToLayoutsConsistent(ctx: Context, xs: seq<Assignment>, keepRotation: bool)
    requires AllPositiveStocks(ctx.stocks)
    ensures var ls := ToLayouts(ctx, xs, keepRotation);
            forall k :: 0 <= k < |ls| ==> Consistent(ctx, ls[k])
  {
    var ls := ToLayouts(ctx, xs, keepRotation);
    var g := GroupByStock(xs);
    forall k | 0 <= k < |ls|
      ensures Consistent(ctx, ls[k])
    {
      assert ls[k] == GroupToLayout(ctx, g[k], keepRotation);
    }
  }

  /** `e` is `part` as a percentage of a positive `whole`, and 0 when `whole` is not positive. */
  predicate PercentOf(e: real, part: real, whole: real) {
    && (whole > 0.0 ==> e * whole == 100.0 * part)
    && (whole <= 0.0 ==> e == 0.0)
  }

  /** `totalStockVolume > 0 ? (totalUsedVolume / totalStockVolume) * 100 : 0`. */
  function Efficiency(t: Totals): (e: real)
    ensures PercentOf(e, t.usedVolume, t.stockVolume)
    ensures t.stockVolume > 0.0 && t.usedVolume >= 0.0 ==> e >= 0.0
    ensures t.stockVolume > 0.0 && 0.0 <= t.usedVolume <= t.stockVolume ==> e <= 100.0
  {
    if t.stockVolume > 0.0 then
      RatioBounds(t.usedVolume, t.stockVolume);
      (t.usedVolume / t.stockVolume) * 100.0
    else 0.0
  }

  lemma RatioBounds(a: real, b: real)
    requires b > 0.0
    ensures (a / b) * b == a
    ensures a >= 0.0 ==> a / b >= 0.0
    ensures a <= b ==> a / b <= 1.0
  {
  }

  // ---------------------------------------------------------------------------
  // Counters

  /** The nested `for (i ...) for (j = i + 1 ...)` loop counting the pairs that satisfy `p`. */
  function CountPairs<T>(s: seq<T>, p: (T, T) -> bool): nat {
    if |s| == 0 then 0 else CountWith(s[0], s[1..], p) + CountPairs(s[1..], p)
  }

  function CountWith<T>(a: T, s: seq<T>, p: (T, T) -> bool): (n: nat)
    ensures n <= |s|
    ensures n == 0 <==> forall j :: 0 <= j < |s| ==> !p(a, s[j])
  {
    if |s| == 0 then 0
    else
      var rest := CountWith(a, s[1..], p);
      assert forall j :: 1 <= j < |s| ==> s[j] == s[1..][j - 1];
      (if p(a, s[0]) then 1 else 0) + rest
  }

  /** The pair count is zero exactly when no pair `i < j` satisfies `p`, and never exceeds the number of pairs. */
  lemma {:induction false} CountPairsZero<T>(s: seq<T>, p: (T, T) -> bool)
    ensures CountPairs(s, p) == 0 <==> forall i, j :: 0 <= i < j < |s| ==> !p(s[i], s[j])
    ensures 2 * CountPairs(s, p) <= |s| * (|s| - 1)
  {
    if |s| > 0 {
      CountPairsZero(s[1..], p);
      var n := |s| - 1;
      assert 2 * n + n * (n - 1) == (n + 1) * n;
      if CountPairs(s, p) == 0 {
        forall i, j | 0 <= i < j < |s|
          ensures !p(s[i], s[j])
        {
          if i == 0 {
            assert s[j] == s[1..][j - 1];
          } else {
            assert s[i] == s[1..][i - 1] && s[j] == s[1..][j - 1];
          }
        }
      }
      if forall i, j :: 0 <= i < j < |s| ==> !p(s[i], s[j]) {
        forall i, j | 0 <= i < j < |s[1..]|
          ensures !p(s[1..][i], s[1..][j])
        {
          assert s[1..][i] == s[i + 1] && s[1..][j] == s[j + 1];
        }
        assert forall j :: 0 <= j < |s[1..]| ==> !p(s[0], s[1..][j]);
      }
    }
  }

  /** The `forEach` counting the elements that satisfy `p`. */
  function CountWhere<T>(s: seq<T>, p: T -> bool): (n: nat)
    ensures n <= |s|
    ensures n == 0 <==> forall i :: 0 <= i < |s| ==> !p(s[i])
  {
    if |s| == 0 then 0
    else
      var rest := CountWhere(s[..|s| - 1], p);
      assert forall i :: 0 <= i < |s| - 1 ==> s[i] == s[..|s| - 1][i];
      rest + (if p(s[|s| - 1]) then 1 else 0)
  }
}
