/**
  The simulated annealer's cooling loop (`SimulatedAnnealing.optimize`): from
  the initial solution, one neighbour per step, accepting every improvement
  and a worse neighbour when the Metropolis test succeeds, which is an explicit
  coin here; the temperature falls geometrically.
 */
module Annealing {
  import opened Sorting
  import opened Foam
  import opened Geometry
  import opened Assignments
  import opened Layouts
  import opened AnnealingState

  const InitialTemperature: real := 1000.0
  const FinalTemperature: real := 1.0
  const CoolingRate: real := 0.99
  const MaxIterations: nat := 10000

  // ---------------------------------------------------------------------------
  // The cooling loop

  datatype CoolingRecord = CoolingRecord(iteration: nat, temperature: real, currentEnergy: real,
                                         bestEnergy: real, efficiency: real, acceptanceRate: real)

  datatype AnnealState = AnnealState(current: Solution, best: Solution, temperature: real, iteration: nat,
                                     accepted: nat, rejected: nat, cooling: seq<CoolingRecord>)

  /** One iteration's draws: the neighbour's, and the outcome of the Metropolis test `Math.random() < Math.exp(-dE / T)`. */
  datatype AnnealDraw = AnnealDraw(move: NeighborDraw, coin: bool)

  /**
    An improvement is always taken; so is a move that leaves the energy
    unchanged, since `Math.exp(0)` is 1 and `Math.random()` stays below it;
    anything else only when the coin says so.
   */
  predicate Accepts(deltaE: real, coin: bool) {
    deltaE <= 0.0 || coin
  }

  function Pow(b: real, n: nat): real {
    if n == 0 then 1.0 else b * Pow(b, n - 1)
  }

  /** Every move was counted once, as accepted or as rejected. */
  predicate Counted(st: AnnealState) {
    st.accepted + st.rejected == st.iteration
  }

  /** The temperature is the initial one cooled once per iteration. */
  predicate CooledFor(st: AnnealState) {
    st.temperature == InitialTemperature * Pow(CoolingRate, st.iteration)
  }

  /** One record per hundred iterations, the k-th taken at iteration 100(k + 1), each with a rate in [0, 1]. */
  predicate Logged(st: AnnealState) {
    && |st.cooling| == st.iteration / 100
    && forall k :: 0 <= k < |st.cooling| ==>
         st.cooling[k].iteration == 100 * (k + 1) && 0.0 <= st.cooling[k].acceptanceRate <= 1.0
  }

  /** Both solutions are evaluated and the best one is no worse than the current one. */
  predicate Kept(st: AnnealState) {
    Evaluated(st.current) && Evaluated(st.best) && st.best.energy <= st.current.energy
  }

  predicate AnnealInvariant(st: AnnealState) {
    Counted(st) && CooledFor(st) && Logged(st) && Kept(st)
  }

  /** The step's preconditions: a neighbour can be drawn from the current solution. */
  predicate Drawable(ctx: Context, st: AnnealState, d: AnnealDraw) {
    && ValidNeighborDraw(d.move) && SwapDrawsDistinct(d.move, |st.current.placements|)
    && (|st.current.placements| > 0 ==> |ctx.stocks| > 0)
  }

  /** The acceptance rate of the moves so far. */
  function AcceptanceRate(accepted: nat, rejected: nat): (r: real)
    requires accepted + rejected > 0
    ensures 0.0 <= r <= 1.0
    ensures r * ((accepted + rejected) as real) == accepted as real
  {
    RatioBounds(accepted as real, (accepted + rejected) as real);
    (accepted as real) / ((accepted + rejected) as real)
  }

  /** One pass of the `while` body of `optimize`. */
  function Step(ctx: Context, st: AnnealState, d: AnnealDraw): (r: AnnealState)
    requires AllPositiveStocks(ctx.stocks) && Drawable(ctx, st, d)
    ensures r.iteration == st.iteration + 1
    ensures var n := Neighbor(ctx, st.current, d.move);
            && (n.energy <= st.current.energy ==> r.current == n)
            && (|| (r.current == n && r.accepted == st.accepted + 1 && r.rejected == st.rejected)
                || (r.current == st.current && r.accepted == st.accepted && r.rejected == st.rejected + 1))
    ensures r.best == st.best || (r.best == r.current && r.best.energy < st.best.energy)
    ensures |r.current.placements| == |st.current.placements|
    ensures multiset(MapSeq(r.current.placements, PieceIdOf)) == multiset(MapSeq(st.current.placements, PieceIdOf))
    ensures Kept(st) ==> Kept(r)
    ensures Measured(ctx, st.current) && Measured(ctx, st.best) ==> Measured(ctx, r.current) && Measured(ctx, r.best)
  {
    var n := Neighbor(ctx, st.current, d.move);
    var accept := Accepts(n.energy - st.current.energy, d.coin);
    var current := if accept then n else st.current;
    var best := if accept && n.energy < st.best.energy then n else st.best;
    var accepted := if accept then st.accepted + 1 else st.accepted;
    var rejected := if accept then st.rejected else st.rejected + 1;
    var iteration := st.iteration + 1;
    var temperature := st.temperature * CoolingRate;
    var cooling :=
      if iteration % 100 == 0 then
        st.cooling + [CoolingRecord(iteration, temperature, current.energy, best.energy, best.efficiency,
                                    AcceptanceRate(accepted, rejected))]
      else st.cooling;
    AnnealState(current, best, temperature, iteration, accepted, rejected, cooling)
  }

  /** The loop keeps its bookkeeping straight: counts, temperature, records. */
  lemma StepInvariant(ctx: Context, st: AnnealState, d: AnnealDraw)
    requires AllPositiveStocks(ctx.stocks) && Drawable(ctx, st, d)
    requires AnnealInvariant(st)
    ensures AnnealInvariant(Step(ctx, st, d))
  {
    var r := Step(ctx, st, d);
    CoolingStep(st.temperature, st.iteration);
    LoggedStep(st, r);
  }

  lemma CoolingStep(t: real, n: nat)
    requires t == InitialTemperature * Pow(CoolingRate, n)
    ensures t * CoolingRate == InitialTemperature * Pow(CoolingRate, n + 1)
  {
  }

  lemma LoggedStep(st: AnnealState, r: AnnealState)
    requires Logged(st) && r.iteration == st.iteration + 1
    requires r.iteration % 100 == 0 ==>
               && |r.cooling| == |st.cooling| + 1
               && r.cooling[..|st.cooling|] == st.cooling
               && r.cooling[|st.cooling|].iteration == r.iteration
               && 0.0 <= r.cooling[|st.cooling|].acceptanceRate <= 1.0
    requires r.iteration % 100 != 0 ==> r.cooling == st.cooling
    ensures Logged(r)
  {
    if r.iteration % 100 == 0 {
      forall k | 0 <= k < |st.cooling|
        ensures r.cooling[k].iteration == 100 * (k + 1) && 0.0 <= r.cooling[k].acceptanceRate <= 1.0
      {
        assert r.cooling[k] == r.cooling[..|st.cooling|][k];
      }
    }
  }

  // ---------------------------------------------------------------------------
  // The loop body as written: shared placement objects

  /**
    The loop body with the source's object sharing: `generateNeighbor`
    copies the array of placements but not the placements, and the nudge,
    rotation and re-stocking moves assign to the chosen placement object, so
    the current solution sees the move whether or not it is accepted (the
    swap stores fresh copies and leaves it alone). The energy stays the old
    one.
   */
  function StepAsWritten(ctx: Context, st: AnnealState, d: AnnealDraw): (r: AnnealState)
    requires AllPositiveStocks(ctx.stocks) && Drawable(ctx, st, d)
    ensures var n := Neighbor(ctx, st.current, d.move);
            && (!(0.7 <= d.move.kind < 0.9) ==> r.current.placements == n.placements)
            && (r.current.energy == n.energy || r.current.energy == st.current.energy)
  {
    var r := Step(ctx, st, d);
    var n := Neighbor(ctx, st.current, d.move);
    if Accepts(n.energy - st.current.energy, d.coin) || 0.7 <= d.move.kind < 0.9 then r
    else r.(current := st.current.(placements := n.placements))
  }

  /**
    A rejected nudge that moves its placement still changes the current
    solution as written, while the intended step leaves it as it was.
   */
  lemma RejectedNudgeLeaks(ctx: Context, st: AnnealState, d: AnnealDraw)
    requires AllPositiveStocks(ctx.stocks) && Drawable(ctx, st, d)
    requires d.move.kind < 0.4 && |st.current.placements| > 0
    requires !Accepts(Neighbor(ctx, st.current, d.move).energy - st.current.energy, d.coin)
    requires var a := st.current.placements[Chosen(st.current.placements, d.move)];
             MovePlacement(ctx, a, d.move) != a
    ensures Step(ctx, st, d).current == st.current
    ensures StepAsWritten(ctx, st, d).current.placements != st.current.placements
  {
    var pl := st.current.placements;
    var k := Chosen(pl, d.move);
    assert NeighborPlacements(ctx, pl, d.move)[k] != pl[k];
  }

  predicate ValidAnnealDraws(draws: seq<AnnealDraw>, n: nat) {
    forall k :: 0 <= k < |draws| ==> ValidNeighborDraw(draws[k].move) && SwapDrawsDistinct(draws[k].move, n)
  }

  /** The `while` loop of `optimize`: cool until the temperature reaches the final one or the iterations run out. */
  function Run(ctx: Context, st: AnnealState, draws: seq<AnnealDraw>): (r: AnnealState)
    requires AllPositiveStocks(ctx.stocks)
    requires st.iteration <= MaxIterations <= |draws|
    requires ValidAnnealDraws(draws, |st.current.placements|)
    requires |st.current.placements| > 0 ==> |ctx.stocks| > 0
    decreases MaxIterations - st.iteration
    ensures st.iteration <= r.iteration <= MaxIterations
    ensures r.temperature <= FinalTemperature || r.iteration == MaxIterations
    ensures st.temperature > FinalTemperature && st.iteration < MaxIterations ==> r.iteration > st.iteration
    ensures r.best.energy <= st.best.energy
    ensures |r.current.placements| == |st.current.placements|
    ensures multiset(MapSeq(r.current.placements, PieceIdOf)) == multiset(MapSeq(st.current.placements, PieceIdOf))
    ensures Kept(st) ==> Kept(r)
    ensures Measured(ctx, st.current) && Measured(ctx, st.best) ==> Measured(ctx, r.current) && Measured(ctx, r.best)
  {
    if st.temperature > FinalTemperature && st.iteration < MaxIterations then
      Run(ctx, Step(ctx, st, draws[st.iteration]), draws)
    else st
  }

  lemma {:induction false} RunInvariant(ctx: Context, st: AnnealState, draws: seq<AnnealDraw>)
    requires AllPositiveStocks(ctx.stocks)
    requires st.iteration <= MaxIterations <= |draws|
    requires ValidAnnealDraws(draws, |st.current.placements|)
    requires |st.current.placements| > 0 ==> |ctx.stocks| > 0
    requires AnnealInvariant(st)
    decreases MaxIterations - st.iteration
    ensures AnnealInvariant(Run(ctx, st, draws))
  {
    if st.temperature > FinalTemperature && st.iteration < MaxIterations {
      StepInvariant(ctx, st, draws[st.iteration]);
      RunInvariant(ctx, Step(ctx, st, draws[st.iteration]), draws);
    }
  }

  // ---------------------------------------------------------------------------
  // The result

  datatype SaResult = SaResult(layouts: seq<LayoutOut>, efficiency: real, totalWaste: real, totalCost: real,
                               iterations: nat, finalTemperature: real, acceptanceRate: real,
                               cooling: seq<CoolingRecord>)

  /** The number of placements the initial solution holds. */
  function PlacementCount(ctx: Context): nat {
    if |ctx.stocks| > 0 then |ctx.expanded| else 0
  }

  /**
    `SimulatedAnnealing.optimize`: the best solution's layouts (rotations
    kept), its efficiency and waste, and the loop's statistics.
   */
  function Optimize(ctx: Context, corners: seq<Corner>, draws: seq<AnnealDraw>): (r: SaResult)
    requires AllPositiveStocks(ctx.stocks)
    requires |corners| == |ctx.expanded| && forall i :: 0 <= i < |corners| ==> ValidCorner(corners[i])
    requires |draws| >= MaxIterations && ValidAnnealDraws(draws, PlacementCount(ctx))
    ensures r.totalWaste == 100.0 - r.efficiency && r.totalCost == 0.0
    ensures r.totalWaste <= InitialSolution(ctx, corners).1.energy
    ensures 0 < r.iterations <= MaxIterations
    ensures r.finalTemperature <= FinalTemperature || r.iterations == MaxIterations
    ensures r.finalTemperature == InitialTemperature * Pow(CoolingRate, r.iterations)
    ensures 0.0 <= r.acceptanceRate <= 1.0
    ensures |r.cooling| == r.iterations / 100
    ensures forall k :: 0 <= k < |r.cooling| ==> r.cooling[k].iteration == 100 * (k + 1)
    ensures var ctx' := InitialSolution(ctx, corners).0;
            && (forall k :: 0 <= k < |r.layouts| ==> Consistent(ctx', r.layouts[k]))
            && PercentOf(r.efficiency, KnownUsedVolume(ctx', r.layouts), KnownStockVolume(ctx', r.layouts))
  {
    var (ctx', initial) := InitialSolution(ctx, corners);
    var st := AnnealState(initial, initial, InitialTemperature, 0, 0, 0, []);
    RunInvariant(ctx', st, draws);
    var fin := Run(ctx', st, draws);
    MeasuredLayouts(ctx', fin.best);
    SaResult(ToLayouts(ctx', fin.best.placements, true), fin.best.efficiency, fin.best.waste, 0.0,
             fin.iteration, fin.temperature, AcceptanceRate(fin.accepted, fin.rejected), fin.cooling)
  }
}
