/**
  The genetic search (`GeneticAlgorithm`): individuals are sequences of genes
  (assignments of piece instances to stock types), scored by a weighted
  fitness of efficiency, waste and feasibility, and bred by elitism,
  tournament selection, single-point crossover and mutation. Every
  `Math.random()` the source calls is an explicit draw in [0, 1).
 */
module Genetic {
  import opened Sorting
  import opened Foam
  import opened Geometry
  import opened Assignments
  import opened Layouts

  const PopulationSize: nat := 50
  const Generations: nat := 100
  const MutationRate: real := 0.1
  const CrossoverRate: real := 0.8
  const ElitismRate: real := 0.2
  const TournamentSize: nat := 5

  /** `Math.floor(populationSize * elitismRate)`. */
  function EliteCount(): (n: nat)
    ensures n == 10
  {
    var f := ((PopulationSize as real) * ElitismRate).Floor;
    assert f == 10;
    f
  }

  datatype Individual = Individual(genes: seq<Assignment>, fitness: real, efficiency: real, waste: real)

  datatype Metrics = Metrics(efficiency: real, waste: real, feasible: bool)

  // ---------------------------------------------------------------------------
  // Fitness

  /** `calculateFitness`: 0.7 of the efficiency score, 0.2 of the waste score, 0.1 for feasibility. */
  function Fitness(m: Metrics): (f: real)
    ensures 0.0 <= m.efficiency <= 100.0 && m.waste == 100.0 - m.efficiency ==> 0.0 <= f <= 1.0
  {
    0.7 * (m.efficiency / 100.0) + 0.2 * (1.0 - m.waste / 100.0) + 0.1 * (if m.feasible then 1.0 else 0.0)
  }

  /** Feasibility adds exactly 0.1. */
  lemma FeasibilityBonus(m: Metrics)
    ensures Fitness(m.(feasible := true)) == Fitness(m.(feasible := false)) + 0.1
  {
  }

  /** With waste the complement of efficiency, fitness grows with efficiency and with feasibility. */
  lemma FitnessMonotone(a: Metrics, b: Metrics)
    requires a.waste == 100.0 - a.efficiency && b.waste == 100.0 - b.efficiency
    requires a.efficiency <= b.efficiency && (a.feasible ==> b.feasible)
    ensures Fitness(a) <= Fitness(b)
    ensures a.efficiency < b.efficiency ==> Fitness(a) < Fitness(b)
  {
  }

  // ---------------------------------------------------------------------------
  // Metrics of a gene sequence

  /**
    `isOverlapping` on two reported pieces, taken back to centimetres and
    given the UNROTATED extents of the first expanded instance with their
    identifiers; a pair with an unknown identifier never overlaps.
   */
  predicate GeneOverlap(expanded: seq<Piece>, a: PieceOut, b: PieceOut) {
    match (FindPiece(expanded, a.pieceId), FindPiece(expanded, b.pieceId))
    case (Some(p1), Some(p2)) =>
      Overlapping(Box(a.x / 10.0, a.y / 10.0, a.z / 10.0, p1.length, p1.width, p1.height),
                  Box(b.x / 10.0, b.y / 10.0, b.z / 10.0, p2.length, p2.width, p2.height))
    case _ => false
  }

  /** `checkOverlaps`: the number of unordered overlapping pairs. */
  function CheckOverlaps(expanded: seq<Piece>, ps: seq<PieceOut>): (n: nat)
    ensures n == 0 <==> forall i, j :: 0 <= i < j < |ps| ==> !GeneOverlap(expanded, ps[i], ps[j])
    ensures 2 * n <= |ps| * (|ps| - 1)
  {
    var p := (a: PieceOut, b: PieceOut) => GeneOverlap(expanded, a, b);
    CountPairsZero(ps, p);
    CountPairs(ps, p)
  }

  /** The `feasible` flag: cleared by any layout of a known stock type with pieces and an overlapping pair. */
  function Feasible(ctx: Context, ls: seq<LayoutOut>): bool {
    if |ls| == 0 then true
    else
      var l := ls[|ls| - 1];
      Feasible(ctx, ls[..|ls| - 1]) &&
        !(FindStock(ctx.stocks, l.stockId).Some? && |l.pieces| > 0 && CheckOverlaps(ctx.expanded, l.pieces) > 0)
  }

  /** No layout of a known stock type holds two overlapping pieces. */
  ghost predicate NoOverlapAnywhere(ctx: Context, ls: seq<LayoutOut>) {
    forall k, i, j :: 0 <= k < |ls| && FindStock(ctx.stocks, ls[k].stockId).Some? && 0 <= i < j < |ls[k].pieces| ==>
      !GeneOverlap(ctx.expanded, ls[k].pieces[i], ls[k].pieces[j])
  }

  lemma {:induction false} FeasibleIffNoOverlap(ctx: Context, ls: seq<LayoutOut>)
    ensures Feasible(ctx, ls) <==> NoOverlapAnywhere(ctx, ls)
  {
    if |ls| > 0 {
      var p := ls[..|ls| - 1];
      assert forall k :: 0 <= k < |p| ==> p[k] == ls[k];
      FeasibleIffNoOverlap(ctx, p);
      if NoOverlapAnywhere(ctx, ls) {
        assert NoOverlapAnywhere(ctx, p);
      }
    }
  }

  /** `calculateMetrics`. */
  function CalculateMetrics(ctx: Context, ls: seq<LayoutOut>): (m: Metrics)
    requires AllPositiveStocks(ctx.stocks)
    ensures m.waste == 100.0 - m.efficiency
    ensures m.feasible <==> NoOverlapAnywhere(ctx, ls)
    ensures PercentOf(m.efficiency, LayoutTotals(ctx, ls).usedVolume, LayoutTotals(ctx, ls).stockVolume)
  {
    FeasibleIffNoOverlap(ctx, ls);
    var e := Efficiency(LayoutTotals(ctx, ls));
    Metrics(e, 100.0 - e, Feasible(ctx, ls))
  }

  /** On the layouts of a gene sequence, efficiency is the used instance volume over the volume of the stock types used, in percent. */
  lemma MetricsAreVolumes(ctx: Context, genes: seq<Assignment>, ls: seq<LayoutOut>)
    requires AllPositiveStocks(ctx.stocks) && ls == ToLayouts(ctx, genes, false)
    ensures PercentOf(CalculateMetrics(ctx, ls).efficiency, KnownUsedVolume(ctx, ls), KnownStockVolume(ctx, ls))
  {
    ToLayoutsConsistent(ctx, genes, false);
    TotalsAreVolumes(ctx, ls);
  }

  // ---------------------------------------------------------------------------
  // Evaluation and selection

  /** An individual whose scores were computed by `evaluatePopulation`. */
  predicate Scored(ind: Individual) {
    ind.waste == 100.0 - ind.efficiency
  }

  /** One step of `evaluatePopulation`: genes kept, scores recomputed from the genes' layouts. */
  function Evaluate(ctx: Context, ind: Individual): (r: Individual)
    requires AllPositiveStocks(ctx.stocks)
    ensures r.genes == ind.genes && Scored(r)
    ensures r.efficiency == CalculateMetrics(ctx, ToLayouts(ctx, ind.genes, false)).efficiency
    ensures 0.0 <= r.efficiency <= 100.0 ==> 0.0 <= r.fitness <= 1.0
  {
    var m := CalculateMetrics(ctx, ToLayouts(ctx, ind.genes, false));
    Individual(ind.genes, Fitness(m), m.efficiency, m.waste)
  }

  function EvaluatePopulation(ctx: Context, pop: seq<Individual>): (r: seq<Individual>)
    requires AllPositiveStocks(ctx.stocks)
    ensures |r| == |pop|
    ensures forall i :: 0 <= i < |r| ==> r[i].genes == pop[i].genes && Scored(r[i]) && Measured(ctx, r[i])
  {
    MapSeq(pop, (ind: Individual) requires AllPositiveStocks(ctx.stocks) => Evaluate(ctx, ind))
  }

  /** The individual's efficiency is that of the layouts its genes give. */
  predicate Measured(ctx: Context, ind: Individual)
    requires AllPositiveStocks(ctx.stocks)
  {
    ind.efficiency == CalculateMetrics(ctx, ToLayouts(ctx, ind.genes, false)).efficiency
  }

  function FitnessOf(ind: Individual): real {
    ind.fitness
  }

  /** `getBestIndividual`: the first individual of maximal fitness. */
  function BestIndex(pop: seq<Individual>): (k: nat)
    requires |pop| > 0
    ensures k < |pop|
    ensures forall j :: 0 <= j < |pop| ==> pop[j].fitness <= pop[k].fitness
    ensures forall j :: 0 <= j < k ==> pop[j].fitness < pop[k].fitness
  {
    ArgMaxFirst(pop, FitnessOf)
  }

  predicate ValidDraws(us: seq<real>) {
    forall i :: 0 <= i < |us| ==> Unit(us[i])
  }

  /**
    `tournamentSelection`: five individuals drawn with replacement; the first
    of maximal fitness among them wins.
   */
  function Tournament(pop: seq<Individual>, us: seq<real>): (r: Individual)
    requires |pop| > 0 && |us| == TournamentSize && ValidDraws(us)
    ensures exists i :: 0 <= i < |us| && r == pop[Index(us[i], |pop|)]
              && (forall j :: 0 <= j < |us| ==> pop[Index(us[j], |pop|)].fitness <= r.fitness)
              && (forall j :: 0 <= j < i ==> pop[Index(us[j], |pop|)].fitness < r.fitness)
  {
    var picks := seq(|us|, i requires 0 <= i < |us| => pop[Index(us[i], |pop|)]);
    var k := ArgMaxFirst(picks, FitnessOf);
    assert forall j :: 0 <= j < |us| ==> picks[j] == pop[Index(us[j], |pop|)];
    assert forall j :: 0 <= j < |us| ==> picks[j].fitness <= picks[k].fitness;
    assert forall j :: 0 <= j < k ==> picks[j].fitness < picks[k].fitness;
    picks[k]
  }

  // ---------------------------------------------------------------------------
  // Crossover and mutation

  /** `Array.prototype.slice(0, n)` and `slice(n)` for `n >= 0`: indices past the end are clamped. */
  function Take<T>(s: seq<T>, n: nat): seq<T> {
    if n <= |s| then s[..n] else s
  }

  function Drop<T>(s: seq<T>, n: nat): seq<T> {
    if n <= |s| then s[n..] else []
  }

  lemma TakeDrop<T>(s: seq<T>, n: nat)
    ensures Take(s, n) + Drop(s, n) == s
  {
  }

  /** `crossover`: the point is drawn over the first parent's length; offspring start unscored. */
  function Crossover(p1: Individual, p2: Individual, u: real): (r: (Individual, Individual))
    requires Unit(u)
    ensures r.0.fitness == 0.0 && r.1.fitness == 0.0
    ensures multiset(r.0.genes) + multiset(r.1.genes) == multiset(p1.genes) + multiset(p2.genes)
    ensures |p1.genes| == |p2.genes| ==>
              && |r.0.genes| == |p1.genes| && |r.1.genes| == |p1.genes|
              && forall i :: 0 <= i < |p1.genes| ==>
                   || (r.0.genes[i] == p1.genes[i] && r.1.genes[i] == p2.genes[i])
                   || (r.0.genes[i] == p2.genes[i] && r.1.genes[i] == p1.genes[i])
  {
    var point := Index(u, |p1.genes|);
    var g1 := Take(p1.genes, point) + Drop(p2.genes, point);
    var g2 := Take(p2.genes, point) + Drop(p1.genes, point);
    TakeDrop(p1.genes, point);
    TakeDrop(p2.genes, point);
    assert multiset(g1) + multiset(g2) == multiset(p1.genes) + multiset(p2.genes) by {
      calc {
        multiset(g1) + multiset(g2);
        multiset(Take(p1.genes, point)) + multiset(Drop(p1.genes, point))
          + (multiset(Take(p2.genes, point)) + multiset(Drop(p2.genes, point)));
        multiset(Take(p1.genes, point) + Drop(p1.genes, point))
          + multiset(Take(p2.genes, point) + Drop(p2.genes, point));
      }
    }
    (Individual(g1, 0.0, 0.0, 0.0), Individual(g2, 0.0, 0.0, 0.0))
  }

  /** The draws one `mutate` call consumes. */
  datatype MutationDraw = MutationDraw(gene: real, kind: real, dx: real, dy: real, dz: real, rotation: real)

  predicate ValidMutation(d: MutationDraw) {
    Unit(d.gene) && Unit(d.kind) && Unit(d.dx) && Unit(d.dy) && Unit(d.dz) && Unit(d.rotation)
  }

  /**
    The position mutation: rotation kept, each coordinate inside the stock
    for the unrotated piece, and at most 10 from where it was along each axis
    it was already inside on.
   */
  predicate NudgedGene(s: Stock, p: Piece, a: Assignment, b: Assignment) {
    && b.rotation == a.rotation
    && 0.0 <= b.x && (s.length - p.length >= 0.0 ==> b.x <= s.length - p.length)
    && 0.0 <= b.y && (s.width - p.width >= 0.0 ==> b.y <= s.width - p.width)
    && 0.0 <= b.z && (s.height - p.height >= 0.0 ==> b.z <= s.height - p.height)
    && (0.0 <= a.x <= s.length - p.length ==> Near(a.x, b.x, 10.0))
    && (0.0 <= a.y <= s.width - p.width ==> Near(a.y, b.y, 10.0))
    && (0.0 <= a.z <= s.height - p.height ==> Near(a.z, b.z, 10.0))
  }

  /** The rotation mutation: position kept and one of the eight rotation numbers. */
  predicate RotatedGene(a: Assignment, b: Assignment) {
    b.x == a.x && b.y == a.y && b.z == a.z && b.rotation < 8
  }

  /**
    What `mutate` does to the chosen gene: piece and stock are kept. With
    stock type and piece found, either the position is nudged or the
    rotation is redrawn; otherwise the gene is left as it was.
   */
  ghost predicate MutatedGene(ctx: Context, a: Assignment, b: Assignment) {
    && b.pieceId == a.pieceId && b.stockId == a.stockId
    && match (FindStock(ctx.stocks, a.stockId), FindPiece(ctx.expanded, a.pieceId))
       case (Some(s), Some(p)) => NudgedGene(s, p, a, b) || RotatedGene(a, b)
       case _ => b == a
  }

  /** `mutate` on the gene at `i`. */
  function MutateGene(ctx: Context, a: Assignment, d: MutationDraw): (b: Assignment)
    requires ValidMutation(d)
    ensures b.pieceId == a.pieceId && b.stockId == a.stockId
  {
    match FindStock(ctx.stocks, a.stockId)
    case None => a
    case Some(s) =>
      match FindPiece(ctx.expanded, a.pieceId)
      case None => a
      case Some(p) =>
        if d.kind < 0.5 then
          ClampNear(s.length - p.length, a.x, a.x + (d.dx - 0.5) * 20.0, 10.0);
          ClampNear(s.width - p.width, a.y, a.y + (d.dy - 0.5) * 20.0, 10.0);
          ClampNear(s.height - p.height, a.z, a.z + (d.dz - 0.5) * 20.0, 10.0);
          a.(x := Clamp(s.length - p.length, a.x + (d.dx - 0.5) * 20.0),
             y := Clamp(s.width - p.width, a.y + (d.dy - 0.5) * 20.0),
             z := Clamp(s.height - p.height, a.z + (d.dz - 0.5) * 20.0))
        else
          a.(rotation := Index(d.rotation, 8))
  }

  /**
    A mutated gene stays where `mutate` may put it; the draw `kind` decides
    between a nudge (below 0.5) and the drawn rotation.
   */
  lemma MutateGeneSpec(ctx: Context, a: Assignment, d: MutationDraw)
    requires ValidMutation(d)
    ensures MutatedGene(ctx, a, MutateGene(ctx, a, d))
    ensures FindStock(ctx.stocks, a.stockId).Some? && FindPiece(ctx.expanded, a.pieceId).Some? ==>
              var s, p, b := FindStock(ctx.stocks, a.stockId).value, FindPiece(ctx.expanded, a.pieceId).value, MutateGene(ctx, a, d);
              && (d.kind < 0.5 ==> NudgedGene(s, p, a, b))
              && (d.kind >= 0.5 ==> RotatedGene(a, b) && b.rotation == Index(d.rotation, 8))
  {
  }

  /**
    `mutate`: a copy of the individual in which only the gene at the drawn
    index may differ. An individual without genes is kept as it is, where
    `mutate` would store an empty object as its gene 0; that case is not modelled.
   */
  function Mutate(ctx: Context, ind: Individual, d: MutationDraw): (r: Individual)
    requires ValidMutation(d)
    ensures |r.genes| == |ind.genes|
    ensures r.fitness == ind.fitness && r.efficiency == ind.efficiency && r.waste == ind.waste
  {
    if |ind.genes| == 0 then ind
    else
      var i := Index(d.gene, |ind.genes|);
      ind.(genes := ind.genes[i := MutateGene(ctx, ind.genes[i], d)])
  }

  /** Only the gene at the drawn index may differ, and it differs only as `mutate` allows. */
  lemma MutateSpec(ctx: Context, ind: Individual, d: MutationDraw)
    requires ValidMutation(d)
    ensures var r := Mutate(ctx, ind, d);
            && (forall j :: 0 <= j < |ind.genes| && j != Index(d.gene, |ind.genes|) ==> r.genes[j] == ind.genes[j])
            && (|ind.genes| > 0 ==>
                  var i := Index(d.gene, |ind.genes|);
                  MutatedGene(ctx, ind.genes[i], r.genes[i]))
  {
    if |ind.genes| > 0 {
      MutateGeneSpec(ctx, ind.genes[Index(d.gene, |ind.genes|)], d);
    }
  }

  // ---------------------------------------------------------------------------
  // Breeding a generation

  /** The draws one round of the breeding loop consumes: two tournaments, the crossover coin and point, two mutation coins and draws. */
  datatype BreedDraw = BreedDraw(t1: seq<real>, t2: seq<real>, cross: real, point: real,
                                 mut1: real, m1: MutationDraw, mut2: real, m2: MutationDraw)

  predicate ValidBreed(d: BreedDraw) {
    && |d.t1| == TournamentSize && ValidDraws(d.t1)
    && |d.t2| == TournamentSize && ValidDraws(d.t2)
    && Unit(d.cross) && Unit(d.point)
    && Unit(d.mut1) && ValidMutation(d.m1) && Unit(d.mut2) && ValidMutation(d.m2)
  }

  predicate ValidBreeds(draws: seq<BreedDraw>) {
    forall j :: 0 <= j < |draws| ==> ValidBreed(draws[j])
  }

  /** Rounds `k..` of `rounds` suffice to fill `acc` up to the population size: each full round adds two. */
  predicate Fillable(acc: seq<Individual>, rounds: nat, k: nat) {
    |acc| <= PopulationSize && k <= rounds && PopulationSize - |acc| <= 2 * (rounds - k)
  }

  /** Every individual carries `n` genes. */
  predicate GeneCount(pop: seq<Individual>, n: nat) {
    forall i :: 0 <= i < |pop| ==> |pop[i].genes| == n
  }

  /** One round: two tournament winners, crossed over with probability 0.8, each mutated with probability 0.1. */
  function Offspring(ctx: Context, pop: seq<Individual>, d: BreedDraw): (r: (Individual, Individual))
    requires |pop| > 0 && ValidBreed(d)
    ensures var p1, p2 := Tournament(pop, d.t1), Tournament(pop, d.t2);
            && (d.mut1 >= MutationRate && d.mut2 >= MutationRate ==>
                  multiset(r.0.genes) + multiset(r.1.genes) == multiset(p1.genes) + multiset(p2.genes))
            && (d.cross >= CrossoverRate && d.mut1 >= MutationRate ==> r.0 == p1)
            && (d.cross >= CrossoverRate && d.mut2 >= MutationRate ==> r.1 == p2)
    ensures d.cross < CrossoverRate ==> r.0.fitness == 0.0 && r.1.fitness == 0.0
  {
    var p1 := Tournament(pop, d.t1);
    var p2 := Tournament(pop, d.t2);
    var children := if d.cross < CrossoverRate then Crossover(p1, p2, d.point) else (p1, p2);
    var o1 := if d.mut1 < MutationRate then Mutate(ctx, children.0, d.m1) else children.0;
    var o2 := if d.mut2 < MutationRate then Mutate(ctx, children.1, d.m2) else children.1;
    (o1, o2)
  }

  /** The two children each round of draws would produce; the loop uses those of its first rounds. */
  function Broods(ctx: Context, pop: seq<Individual>, draws: seq<BreedDraw>): (r: seq<(Individual, Individual)>)
    requires |pop| > 0 && ValidBreeds(draws)
    ensures |r| == |draws|
  {
    seq(|draws|, j requires 0 <= j < |draws| => Offspring(ctx, pop, draws[j]))
  }

  /** One pass of the loop body: push the first child, then the second while there is room. */
  function BreedRound(acc: seq<Individual>, children: (Individual, Individual)): (r: seq<Individual>)
    requires |acc| < PopulationSize
    ensures acc < r && |r| == if |acc| + 2 <= PopulationSize then |acc| + 2 else PopulationSize
  {
    var acc1 := acc + [children.0];
    if |acc1| < PopulationSize then acc1 + [children.1] else acc1
  }

  /** The `while (newPopulation.length < populationSize)` loop; round `k` pushes `broods[k]`. */
  function Breed(acc: seq<Individual>, broods: seq<(Individual, Individual)>, k: nat): (r: seq<Individual>)
    requires Fillable(acc, |broods|, k)
    ensures |r| == PopulationSize && acc <= r
    decreases PopulationSize - |acc|
  {
    if |acc| >= PopulationSize then acc
    else Breed(BreedRound(acc, broods[k]), broods, k + 1)
  }

  lemma OffspringGeneCount(ctx: Context, pop: seq<Individual>, d: BreedDraw, n: nat)
    requires |pop| > 0 && ValidBreed(d) && GeneCount(pop, n)
    ensures var r := Offspring(ctx, pop, d);
            |r.0.genes| == n && |r.1.genes| == n
  {
    var p1 := Tournament(pop, d.t1);
    var p2 := Tournament(pop, d.t2);
    var i1 :| 0 <= i1 < |d.t1| && p1 == pop[Index(d.t1[i1], |pop|)];
    var i2 :| 0 <= i2 < |d.t2| && p2 == pop[Index(d.t2[i2], |pop|)];
    assert |p1.genes| == n && |p2.genes| == n;
  }

  /** Every child carries `n` genes. */
  predicate BroodGeneCount(broods: seq<(Individual, Individual)>, n: nat) {
    forall j :: 0 <= j < |broods| ==> |broods[j].0.genes| == n && |broods[j].1.genes| == n
  }

  /** Breeding from a population whose individuals all carry `n` genes gives children with `n` genes. */
  lemma BroodsGeneCount(ctx: Context, pop: seq<Individual>, draws: seq<BreedDraw>, n: nat)
    requires |pop| > 0 && ValidBreeds(draws) && GeneCount(pop, n)
    ensures BroodGeneCount(Broods(ctx, pop, draws), n)
  {
    var b := Broods(ctx, pop, draws);
    forall j | 0 <= j < |b|
      ensures |b[j].0.genes| == n && |b[j].1.genes| == n
    {
      OffspringGeneCount(ctx, pop, draws[j], n);
    }
  }

  /** Filling up with such children keeps every individual at `n` genes. */
  lemma {:induction false} BreedGeneCount(acc: seq<Individual>, broods: seq<(Individual, Individual)>, k: nat, n: nat)
    requires Fillable(acc, |broods|, k) && GeneCount(acc, n) && BroodGeneCount(broods, n)
    ensures GeneCount(Breed(acc, broods, k), n)
    decreases PopulationSize - |acc|
  {
    if |acc| < PopulationSize {
      RoundGeneCount(acc, broods[k], n);
      BreedGeneCount(BreedRound(acc, broods[k]), broods, k + 1, n);
    }
  }

  lemma RoundGeneCount(acc: seq<Individual>, children: (Individual, Individual), n: nat)
    requires |acc| < PopulationSize && GeneCount(acc, n)
    requires |children.0.genes| == n && |children.1.genes| == n
    ensures GeneCount(BreedRound(acc, children), n)
  {
    var r := BreedRound(acc, children);
    forall i | 0 <= i < |r|
      ensures |r[i].genes| == n
    {
      if i < |acc| {
        assert r[i] == acc[i];
      } else if i == |acc| {
        assert r[i] == children.0;
      } else {
        assert r[i] == children.1;
      }
    }
  }

  /** `b.fitness - a.fitness` as an order: fitter first. */
  predicate FitterOrEqual(a: Individual, b: Individual) {
    a.fitness >= b.fitness
  }

  lemma FitterOrEqualTotal()
    ensures TotalPreorder(FitterOrEqual)
  {
  }

  /** `population.sort((a, b) => b.fitness - a.fitness)`: a stable sort, fittest first. */
  function SortByFitness(pop: seq<Individual>): (r: seq<Individual>)
    ensures |r| == |pop| && multiset(r) == multiset(pop)
    ensures SortedBy(r, FitterOrEqual)
  {
    FitterOrEqualTotal();
    SortBy(pop, FitterOrEqual)
  }

  /** The elites are the fittest individuals of the population, fittest first. */
  ghost predicate ElitePrefix(pop: seq<Individual>, elites: seq<Individual>) {
    && multiset(elites) <= multiset(pop)
    && (forall i, j :: 0 <= i < j < |elites| ==> elites[i].fitness >= elites[j].fitness)
    && (forall i, q :: 0 <= i < |elites| && q in multiset(pop) - multiset(elites) ==> q.fitness <= elites[i].fitness)
  }

  lemma SortedElites(pop: seq<Individual>, sorted: seq<Individual>, e: nat)
    requires multiset(sorted) == multiset(pop) && SortedBy(sorted, FitterOrEqual) && e <= |sorted|
    ensures ElitePrefix(pop, sorted[..e])
  {
    ElitesSplit(pop, sorted, e);
    ElitesSorted(sorted, e);
    EliteBound(sorted, e);
  }

  lemma ElitesSplit(pop: seq<Individual>, sorted: seq<Individual>, e: nat)
    requires multiset(sorted) == multiset(pop) && e <= |sorted|
    ensures multiset(pop) == multiset(sorted[..e]) + multiset(sorted[e..])
  {
    assert sorted == sorted[..e] + sorted[e..];
  }

  lemma ElitesSorted(sorted: seq<Individual>, e: nat)
    requires SortedBy(sorted, FitterOrEqual) && e <= |sorted|
    ensures forall i, j :: 0 <= i < j < e ==> sorted[..e][i].fitness >= sorted[..e][j].fitness
  {
    forall i, j | 0 <= i < j < e
      ensures sorted[..e][i].fitness >= sorted[..e][j].fitness
    {
      assert FitterOrEqual(sorted[i], sorted[j]);
    }
  }

  lemma EliteBound(sorted: seq<Individual>, e: nat)
    requires SortedBy(sorted, FitterOrEqual) && e <= |sorted|
    ensures forall i, q :: 0 <= i < e && q in multiset(sorted[e..]) ==> q.fitness <= sorted[i].fitness
  {
    var rest := sorted[e..];
    forall i, q: Individual | 0 <= i < e && q in multiset(rest)
      ensures q.fitness <= sorted[i].fitness
    {
      assert q in rest;
      var j :| 0 <= j < |rest| && rest[j] == q;
      assert FitterOrEqual(sorted[i], sorted[e + j]);
    }
  }

  lemma PrefixTake<T>(a: seq<T>, b: seq<T>)
    requires a <= b
    ensures b[..|a|] == a
  {
  }

  /**
    `evolvePopulation`: the population sorted fittest first (stably), its
    first `eliteCount` kept, then filled up to `populationSize` by breeding
    from the sorted population.
   */
  function Evolve(ctx: Context, pop: seq<Individual>, draws: seq<BreedDraw>): (r: seq<Individual>)
    requires |pop| > 0 && |draws| >= PopulationSize / 2 && ValidBreeds(draws)
    ensures |r| == PopulationSize
    ensures var e := if |pop| < EliteCount() then |pop| else EliteCount();
            ElitePrefix(pop, r[..e])
  {
    var sorted := SortByFitness(pop);
    var e := if |pop| < EliteCount() then |pop| else EliteCount();
    var elites := sorted[..e];
    SortedElites(pop, sorted, e);
    var broods := Broods(ctx, sorted, draws);
    assert |elites| == e <= 10 && |broods| >= 25;
    var r := Breed(elites, broods, 0);
    PrefixTake(elites, r);
    r
  }

  // ---------------------------------------------------------------------------
  // The initial population

  /** The draws one gene of `createInitialPopulation` consumes. */
  datatype GeneDraw = GeneDraw(stock: real, x: real, y: real, z: real, rotation: real)

  predicate ValidGeneDraw(d: GeneDraw) {
    Unit(d.stock) && Unit(d.x) && Unit(d.y) && Unit(d.z) && Unit(d.rotation)
  }

  /**
    A random gene for `piece`: a random stock type, each coordinate a random
    fraction of the stock extent minus the piece extent (negative when the
    piece is larger), a random rotation number.
   */
  function InitialGene(ctx: Context, piece: Piece, d: GeneDraw): (a: Assignment)
    requires |ctx.stocks| > 0 && ValidGeneDraw(d)
    ensures a.pieceId == piece.id && a.rotation < 8
    ensures exists s :: s in ctx.stocks && a.stockId == s.id
              && Between(a.x, s.length - piece.length) && Between(a.y, s.width - piece.width)
              && Between(a.z, s.height - piece.height)
  {
    var s := ctx.stocks[Index(d.stock, |ctx.stocks|)];
    Assignment(piece.id, s.id, Scale(d.x, s.length - piece.length), Scale(d.y, s.width - piece.width),
               Scale(d.z, s.height - piece.height), Index(d.rotation, 8))
  }

  /** Draws for the whole initial population: one row per individual, one draw per expanded instance. */
  predicate ValidPopulationDraws(ctx: Context, ds: seq<seq<GeneDraw>>) {
    && |ds| == PopulationSize
    && (forall i :: 0 <= i < |ds| ==> |ds[i]| == |ctx.expanded|)
    && (forall i, j :: 0 <= i < |ds| && 0 <= j < |ds[i]| ==> ValidGeneDraw(ds[i][j]))
  }

  /**
    `createInitialPopulation`: the source reads `stockFoams[index].id`, which
    fails when there are pieces but no stock types, hence the precondition.
   */
  function CreateInitialPopulation(ctx: Context, ds: seq<seq<GeneDraw>>): (r: seq<Individual>)
    requires |ctx.expanded| > 0 ==> |ctx.stocks| > 0
    requires ValidPopulationDraws(ctx, ds)
    ensures |r| == PopulationSize && GeneCount(r, |ctx.expanded|)
    ensures forall i, j :: 0 <= i < |r| && 0 <= j < |r[i].genes| ==>
              r[i].genes[j].pieceId == ctx.expanded[j].id && r[i].genes[j].rotation < 8
    ensures forall i :: 0 <= i < |r| ==> r[i].fitness == 0.0
  {
    seq(PopulationSize, i requires 0 <= i < PopulationSize =>
      Individual(seq(|ctx.expanded|, j requires 0 <= j < |ctx.expanded| => InitialGene(ctx, ctx.expanded[j], ds[i][j])),
                 0.0, 0.0, 0.0))
  }

  // ---------------------------------------------------------------------------
  // The generation loop

  datatype GenerationRecord = GenerationRecord(generation: nat, bestFitness: real, avgFitness: real, efficiency: real, waste: real)

  datatype GaState = GaState(population: seq<Individual>, best: Individual, records: seq<GenerationRecord>)

  function AverageFitness(pop: seq<Individual>): real
    requires |pop| > 0
  {
    Sum(MapSeq(pop, FitnessOf)) / (|pop| as real)
  }

  function BestFitnessOf(r: GenerationRecord): real {
    r.bestFitness
  }

  /** `generationData.slice(-20)`. */
  function LastTwenty(records: seq<GenerationRecord>): (r: seq<GenerationRecord>)
    ensures |r| == if |records| < 20 then |records| else 20
    ensures records[|records| - |r|..] == r
  {
    if |records| < 20 then records else records[|records| - 20..]
  }

  /**
    The early stop after recording generation `|records| - 1`: past
    generation 20, the best fitness of the last 20 generations spans less than 0.001.
   */
  predicate StopsEarly(records: seq<GenerationRecord>) {
    |records| > 0 && |records| - 1 > 20 &&
      var recent := MapSeq(LastTwenty(records), BestFitnessOf);
      MaxOf(recent) - MinOf(recent) < 0.001
  }

  /** Record `k` is that of generation `k`. */
  ghost predicate Numbered(records: seq<GenerationRecord>) {
    forall k :: 0 <= k < |records| ==> records[k].generation == k
  }

  /** No record reports a best fitness above the tracked best individual's. */
  ghost predicate BestAbove(records: seq<GenerationRecord>, best: Individual) {
    forall k :: 0 <= k < |records| ==> records[k].bestFitness <= best.fitness
  }

  /** The early-stop test failed after every record but possibly the last. */
  ghost predicate NoEarlierStop(records: seq<GenerationRecord>) {
    forall g :: 0 < g < |records| ==> !StopsEarly(records[..g])
  }

  /** One pass of the loop body: evolve, re-evaluate, update the best on a strict improvement, record. */
  function Step(ctx: Context, st: GaState, draws: seq<BreedDraw>): (r: GaState)
    requires AllPositiveStocks(ctx.stocks)
    requires |st.population| > 0 && |draws| >= PopulationSize / 2 && ValidBreeds(draws)
    ensures |r.population| == PopulationSize
    ensures |r.records| == |st.records| + 1 && st.records <= r.records
    ensures r.records[|st.records|].generation == |st.records|
    ensures st.best.fitness <= r.best.fitness
    ensures r.records[|st.records|].bestFitness <= r.best.fitness
    ensures Scored(st.best) ==> Scored(r.best)
    ensures Measured(ctx, st.best) ==> Measured(ctx, r.best)
    ensures Numbered(st.records) ==> Numbered(r.records)
    ensures BestAbove(st.records, st.best) ==> BestAbove(r.records, r.best)
    ensures NoEarlierStop(st.records) && !StopsEarly(st.records) ==> NoEarlierStop(r.records)
  {
    var pop := EvaluatePopulation(ctx, Evolve(ctx, st.population, draws));
    var current := pop[BestIndex(pop)];
    var best := if current.fitness > st.best.fitness then current else st.best;
    var record := GenerationRecord(|st.records|, current.fitness, AverageFitness(pop), current.efficiency, current.waste);
    NumberedSnoc(st.records, record);
    BestAboveSnoc(st.records, record, st.best, best);
    NoEarlierStopSnoc(st.records, record);
    GaState(pop, best, st.records + [record])
  }

  lemma NumberedSnoc(records: seq<GenerationRecord>, record: GenerationRecord)
    requires record.generation == |records|
    ensures Numbered(records) ==> Numbered(records + [record])
  {
  }

  lemma BestAboveSnoc(records: seq<GenerationRecord>, record: GenerationRecord, best: Individual, best': Individual)
    requires best.fitness <= best'.fitness && record.bestFitness <= best'.fitness
    ensures BestAbove(records, best) ==> BestAbove(records + [record], best')
  {
  }

  lemma NoEarlierStopSnoc(records: seq<GenerationRecord>, record: GenerationRecord)
    ensures NoEarlierStop(records) && !StopsEarly(records) ==> NoEarlierStop(records + [record])
  {
    var rs := records + [record];
    assert rs[..|records|] == records;
    assert forall g :: 0 < g < |records| ==> rs[..g] == records[..g];
  }

  predicate ValidGenerationDraws(draws: seq<seq<BreedDraw>>) {
    |draws| >= Generations &&
      forall g :: 0 <= g < |draws| ==> |draws[g]| >= PopulationSize / 2 && ValidBreeds(draws[g])
  }

  /** The `for (generation ...)` loop from generation `|st.records|`, with the early stop. */
  function Run(ctx: Context, st: GaState, draws: seq<seq<BreedDraw>>): (r: GaState)
    requires AllPositiveStocks(ctx.stocks)
    requires |st.population| > 0 && |st.records| <= Generations && ValidGenerationDraws(draws)
    ensures |r.population| > 0 && st.records <= r.records && |r.records| <= Generations
    ensures |st.records| < Generations ==> |r.population| == PopulationSize
    ensures |st.records| < Generations ==> |r.records| == Generations || StopsEarly(r.records)
    ensures st.best.fitness <= r.best.fitness
    ensures Scored(st.best) ==> Scored(r.best)
    ensures Measured(ctx, st.best) ==> Measured(ctx, r.best)
    ensures Numbered(st.records) ==> Numbered(r.records)
    ensures BestAbove(st.records, st.best) ==> BestAbove(r.records, r.best)
    ensures NoEarlierStop(st.records) && !StopsEarly(st.records) ==> NoEarlierStop(r.records)
    decreases Generations - |st.records|
  {
    if |st.records| >= Generations then st
    else
      var next := Step(ctx, st, draws[|st.records|]);
      if StopsEarly(next.records) then next else Run(ctx, next, draws)
  }

  datatype GaResult = GaResult(layouts: seq<LayoutOut>, efficiency: real, totalWaste: real, totalCost: real,
                               generations: nat, finalPopulation: nat, convergence: seq<GenerationRecord>)

  /** Before the loop: the evaluated initial population and its first fittest individual. */
  function Start(ctx: Context, initial: seq<seq<GeneDraw>>): (st: GaState)
    requires AllPositiveStocks(ctx.stocks) && (|ctx.expanded| > 0 ==> |ctx.stocks| > 0)
    requires ValidPopulationDraws(ctx, initial)
    ensures |st.population| == PopulationSize && st.records == []
    ensures st.best in st.population && Scored(st.best) && Measured(ctx, st.best)
    ensures forall j :: 0 <= j < |st.population| ==> st.population[j].fitness <= st.best.fitness
  {
    var pop := EvaluatePopulation(ctx, CreateInitialPopulation(ctx, initial));
    GaState(pop, pop[BestIndex(pop)], [])
  }

  /** A measured individual's layouts are consistent, and its efficiency is their volume share. */
  lemma MeasuredLayouts(ctx: Context, ind: Individual)
    requires AllPositiveStocks(ctx.stocks) && Measured(ctx, ind)
    ensures var ls := ToLayouts(ctx, ind.genes, false);
            && (forall k :: 0 <= k < |ls| ==> Consistent(ctx, ls[k]))
            && PercentOf(ind.efficiency, KnownUsedVolume(ctx, ls), KnownStockVolume(ctx, ls))
  {
    ToLayoutsConsistent(ctx, ind.genes, false);
    MetricsAreVolumes(ctx, ind.genes, ToLayouts(ctx, ind.genes, false));
  }

  /**
    After the loop: a full population, between one and `Generations`
    numbered records, and a best individual that is scored and measured, at
    least as fit as every initial individual and as every recorded best.
   */
  function Final(ctx: Context, initial: seq<seq<GeneDraw>>, draws: seq<seq<BreedDraw>>): (st: GaState)
    requires AllPositiveStocks(ctx.stocks) && (|ctx.expanded| > 0 ==> |ctx.stocks| > 0)
    requires ValidPopulationDraws(ctx, initial) && ValidGenerationDraws(draws)
    ensures |st.population| == PopulationSize && 0 < |st.records| <= Generations
    ensures |st.records| == Generations || StopsEarly(st.records)
    ensures Numbered(st.records) && NoEarlierStop(st.records)
    ensures Scored(st.best) && Measured(ctx, st.best) && BestAbove(st.records, st.best)
    ensures Start(ctx, initial).best.fitness <= st.best.fitness
  {
    var s0 := Start(ctx, initial);
    assert s0.records == [];
    assert Numbered(s0.records) && NoEarlierStop(s0.records) && !StopsEarly(s0.records) && BestAbove(s0.records, s0.best);
    Run(ctx, s0, draws)
  }

  /**
    `optimize`: the evaluated initial population, its best individual, the
    generation loop, and the best individual's layouts and scores. The
    returned individual is at least as fit as every initial one and as every
    generation's best, and the returned efficiency is the volume share of
    its layouts.
   */
  function Optimize(ctx: Context, initial: seq<seq<GeneDraw>>, draws: seq<seq<BreedDraw>>): (r: GaResult)
    requires AllPositiveStocks(ctx.stocks) && (|ctx.expanded| > 0 ==> |ctx.stocks| > 0)
    requires ValidPopulationDraws(ctx, initial) && ValidGenerationDraws(draws)
    ensures r.totalWaste == 100.0 - r.efficiency && r.totalCost == 0.0
    ensures 0 < r.generations <= Generations && r.generations == |r.convergence|
    ensures r.generations == Generations || StopsEarly(r.convergence)
    ensures r.finalPopulation == PopulationSize
    ensures Numbered(r.convergence) && NoEarlierStop(r.convergence)
    ensures var b := Final(ctx, initial, draws).best;
            && r.layouts == ToLayouts(ctx, b.genes, false) && r.efficiency == b.efficiency
            && Start(ctx, initial).best.fitness <= b.fitness
            && BestAbove(r.convergence, b)
    ensures forall k :: 0 <= k < |r.layouts| ==> Consistent(ctx, r.layouts[k])
    ensures PercentOf(r.efficiency, KnownUsedVolume(ctx, r.layouts), KnownStockVolume(ctx, r.layouts))
  {
    var st := Final(ctx, initial, draws);
    MeasuredLayouts(ctx, st.best);
    GaResult(ToLayouts(ctx, st.best.genes, false), st.best.efficiency, st.best.waste, 0.0,
             |st.records|, |st.population|, st.records)
  }
}
