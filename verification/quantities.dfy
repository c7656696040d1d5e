/**
  The quantity helpers of the optimizer's main screen. They work in
  centimetres, before any packing runs:
  - the largest count of one new piece that the listed stock could hold;
  - the volume-based maximisation of every piece's quantity;
  - the refill of the last result's waste with the smallest piece.
 */
module Quantities {
  import opened Sorting
  import opened Foam
  import Layouts

  // ---------------------------------------------------------------------------
  // Arithmetic facts about `Math.floor` and products

  /** `Math.floor(a / b)` lies in `(a / b - 1, a / b]`, so `floor · b` undershoots `a` by less than `b`. */
  lemma FloorBounds(a: real, b: real)
    requires b > 0.0
    ensures ((a / b).Floor as real) * b <= a
    ensures a < ((a / b).Floor as real) * b + b
  {
    var q := a / b;
    assert q * b == a;
    AboveMultiple(a, b, q, q.Floor as real);
    BelowNextMultiple(a, b, q, q.Floor as real);
  }

  lemma AboveMultiple(a: real, b: real, q: real, f: real)
    requires b > 0.0 && q * b == a && f <= q
    ensures f * b <= a
  {
    assert (q - f) * b >= 0.0;
  }

  lemma BelowNextMultiple(a: real, b: real, q: real, f: real)
    requires b > 0.0 && q * b == a && q < f + 1.0
    ensures a < f * b + b
  {
    var x := f + 1.0 - q;
    assert x > 0.0;
    assert x * b > 0.0;
    assert x * b == f * b + b - q * b;
    assert f * b + b - a > 0.0;
  }

  /** A quotient in `[0, 1)` floors to zero. */
  lemma FloorZero(a: real, b: real)
    requires 0.0 <= a < b
    ensures (a / b).Floor == 0
  {
    FloorBounds(a, b);
  }

  /** A quotient of at least one floors to at least one. */
  lemma FloorPositive(a: real, b: real)
    requires 0.0 < b <= a
    ensures (a / b).Floor >= 1
  {
    FloorBounds(a, b);
  }

  function Product(x: real, y: real, z: real): real {
    x * y * z
  }

  lemma ProductMono(x1: real, x2: real, x3: real, y1: real, y2: real, y3: real)
    requires 0.0 <= x1 <= y1 && 0.0 <= x2 <= y2 && 0.0 <= x3 <= y3
    ensures Product(x1, x2, x3) <= Product(y1, y2, y3)
  {
    assert x1 * x2 <= y1 * x2;
    assert y1 * x2 <= y1 * y2;
    assert (x1 * x2) * x3 <= (y1 * y2) * x3;
    assert (y1 * y2) * x3 <= (y1 * y2) * y3;
  }

  // ---------------------------------------------------------------------------
  // Volumes counted with quantities

  /** `pieces.reduce((sum, p) => sum + p.length * p.width * p.height * p.quantity, 0)`. */
  function PieceTotal(ps: seq<Piece>): real {
    if |ps| == 0 then 0.0 else Volume(ps[0]) * (ps[0].quantity as real) + PieceTotal(ps[1..])
  }

  /** The same sum over the stock blocks. */
  function StockTotal(ss: seq<Stock>): real {
    if |ss| == 0 then 0.0 else Share(ss[0]) + StockTotal(ss[1..])
  }

  /** The volume of all copies of one block. */
  function Share(s: Stock): real {
    StockVolume(s) * (s.quantity as real)
  }

  /** `b` is `a` with the same dimensions, identity and labels, and at least its quantity. */
  predicate Grown(a: Piece, b: Piece) {
    b == a.(quantity := b.quantity) && b.quantity >= a.quantity
  }

  /** `a` with `n` more units. */
  function AddUnits(a: Piece, n: nat): (b: Piece)
    ensures Grown(a, b) && b.quantity - a.quantity == n
  {
    a.(quantity := a.quantity + n)
  }

  /** Adding `n` units to one entry adds `n` times its unit volume to the total. */
  lemma {:induction false} PieceTotalAdd(ps: seq<Piece>, j: nat, n: nat)
    requires j < |ps|
    ensures PieceTotal(ps[j := AddUnits(ps[j], n)]) == PieceTotal(ps) + (n as real) * Volume(ps[j])
  {
    var qs := ps[j := AddUnits(ps[j], n)];
    if j > 0 {
      PieceTotalAdd(ps[1..], j - 1, n);
      assert qs[1..] == ps[1..][j - 1 := AddUnits(ps[j], n)];
    } else {
      assert qs[1..] == ps[1..];
      var q := ps[0].quantity as real;
      assert Volume(qs[0]) * (q + n as real) == Volume(ps[0]) * q + (n as real) * Volume(ps[0]);
    }
  }

  // ---------------------------------------------------------------------------
  // calculateMaxQuantity

  /** The new-piece form's three dimension fields; `None` is an empty field. */
  datatype Draft = Draft(length: Option<real>, width: Option<real>, height: Option<real>)

  predicate Complete(d: Draft) {
    d.length.Some? && d.width.Some? && d.height.Some?
  }

  /** A filled-in field of zero would divide by zero. */
  predicate NoZeroField(d: Draft) {
    && (d.length.Some? ==> d.length.value != 0.0)
    && (d.width.Some? ==> d.width.value != 0.0)
    && (d.height.Some? ==> d.height.value != 0.0)
  }

  datatype Dims = Dims(l: real, w: real, h: real)

  predicate NonZero(d: Dims) {
    d.l != 0.0 && d.w != 0.0 && d.h != 0.0
  }

  function DimsVolume(d: Dims): real {
    d.l * d.w * d.h
  }

  /** The six orderings the source tries, the typed order first. */
  function Orientations(d: Dims): (os: seq<Dims>)
    ensures |os| == 6 && os[0] == d
  {
    [Dims(d.l, d.w, d.h), Dims(d.l, d.h, d.w), Dims(d.w, d.l, d.h),
     Dims(d.w, d.h, d.l), Dims(d.h, d.l, d.w), Dims(d.h, d.w, d.l)]
  }

  /** `fitL * fitW * fitH`: how many boxes of one orientation a block holds in a grid. */
  function GridCount(s: Stock, o: Dims): int
    requires NonZero(o)
  {
    (s.length / o.l).Floor * (s.width / o.w).Floor * (s.height / o.h).Floor
  }

  /** The grid counts of the six orientations, in the order they are tried. */
  function Counts(s: Stock, d: Dims): (cs: seq<int>)
    requires NonZero(d)
    ensures |cs| == 6
    ensures forall i :: 0 <= i < 6 ==> NonZero(Orientations(d)[i]) && cs[i] == GridCount(s, Orientations(d)[i])
  {
    var os := Orientations(d);
    seq(6, i requires 0 <= i < 6 => GridCount(s, os[i]))
  }

  /** `Math.max` folded over the counts, starting from `best`. */
  function MaxFrom(cs: seq<int>, best: int): (m: int)
    ensures best <= m
    ensures forall i :: 0 <= i < |cs| ==> cs[i] <= m
    ensures m == best || m in cs
  {
    if |cs| == 0 then best
    else
      var m := MaxFrom(cs[1..], if cs[0] > best then cs[0] else best);
      assert forall i :: 1 <= i < |cs| ==> cs[i] == cs[1..][i - 1];
      m
  }

  /** The fold depends only on which counts occur, not on their order. */
  lemma SameMax(a: seq<int>, b: seq<int>, best: int)
    requires forall x :: x in a <==> x in b
    ensures MaxFrom(a, best) == MaxFrom(b, best)
  {
    var ma, mb := MaxFrom(a, best), MaxFrom(b, best);
    if ma != best {
      assert ma in b;
    }
    if mb != best {
      assert mb in a;
    }
  }

  /** `maxForThisStock`: the best grid count of the six orientations, never below zero. */
  function BestGrid(s: Stock, d: Dims): (n: nat)
    requires NonZero(d)
  {
    MaxFrom(Counts(s, d), 0)
  }

  /** `maxForThisStock * stock.quantity`. */
  function Weighted(s: Stock, d: Dims): nat
    requires NonZero(d)
  {
    BestGrid(s, d) * s.quantity
  }

  /** The per-block counts weighted by the block quantities. */
  function GridTotal(ss: seq<Stock>, d: Dims): nat
    requires NonZero(d)
  {
    if |ss| == 0 then 0 else Weighted(ss[0], d) + GridTotal(ss[1..], d)
  }

  /**
    `calculateMaxQuantity`: the quantity it writes into the form, or `None`
    when it only alerts because a dimension is missing or no stock exists.
   */
  function MaxQuantity(d: Draft, stocks: seq<Stock>): (r: Option<nat>)
    requires NoZeroField(d)
    ensures r.None? <==> !Complete(d) || |stocks| == 0
    ensures r.Some? ==> forall i :: 0 <= i < |stocks| ==>
              Weighted(stocks[i], Dims(d.length.value, d.width.value, d.height.value)) <= r.value
    ensures r.Some? ==> r.value == GridTotal(stocks, Dims(d.length.value, d.width.value, d.height.value))
  {
    if !Complete(d) || |stocks| == 0 then None
    else
      var dims := Dims(d.length.value, d.width.value, d.height.value);
      GridTotalCovers(stocks, dims);
      Some(GridTotal(stocks, dims))
  }

  lemma {:induction false} GridTotalCovers(ss: seq<Stock>, d: Dims)
    requires NonZero(d)
    ensures forall i :: 0 <= i < |ss| ==> Weighted(ss[i], d) <= GridTotal(ss, d)
  {
    if |ss| > 0 {
      GridTotalCovers(ss[1..], d);
      assert forall i :: 1 <= i < |ss| ==> ss[i] == ss[1..][i - 1];
    }
  }

  /** The total over two lists of stock types is the sum of their totals. */
  lemma {:induction false} GridTotalAppend(a: seq<Stock>, b: seq<Stock>, d: Dims)
    requires NonZero(d)
    ensures GridTotal(a + b, d) == GridTotal(a, d) + GridTotal(b, d)
  {
    if |a| == 0 {
      assert a + b == b;
    } else {
      GridTotalAppend(a[1..], b, d);
      assert (a + b)[0] == a[0] && (a + b)[1..] == a[1..] + b;
      assert GridTotal(a + b, d) == Weighted(a[0], d) + GridTotal(a[1..] + b, d);
    }
  }

  /** One stock type contributes its best grid count times its quantity. */
  lemma GridTotalSingle(s: Stock, d: Dims)
    requires NonZero(d)
    ensures GridTotal([s], d) == BestGrid(s, d) * s.quantity
  {
    assert [s][1..] == [];
  }

  /** Each block's best count dominates every orientation and is attained by one of them, or is zero. */
  lemma BestGridIsMax(s: Stock, d: Dims)
    requires NonZero(d)
    ensures forall i :: 0 <= i < 6 ==> NonZero(Orientations(d)[i]) && GridCount(s, Orientations(d)[i]) <= BestGrid(s, d)
    ensures BestGrid(s, d) == 0 || exists i :: 0 <= i < 6 && BestGrid(s, d) == GridCount(s, Orientations(d)[i])
  {
    var cs := Counts(s, d);
    if BestGrid(s, d) != 0 {
      var i :| 0 <= i < 6 && cs[i] == BestGrid(s, d);
    }
  }

  /** A quotient of non-negative by positive floors to a non-negative count. */
  lemma FloorNonNegative(a: real, b: real)
    requires a >= 0.0 && b > 0.0
    ensures (a / b).Floor >= 0
  {
    var q := a / b;
    assert q * b == a;
  }

  /** `n` boxes of volume `v` take at most the volume `cap`. */
  predicate TakesAtMost(n: int, v: real, cap: real) {
    (n as real) * v <= cap
  }

  /** The length `Math.floor(a / b)` boxes of length `b` take along one axis. */
  function Used(a: real, b: real): real
    requires b != 0.0
  {
    ((a / b).Floor as real) * b
  }

  lemma UsedBounds(a: real, b: real)
    requires a > 0.0 && b > 0.0
    ensures 0.0 <= Used(a, b)
    ensures Used(a, b) <= a
  {
    FloorBounds(a, b);
    FloorNonNegative(a, b);
  }

  /** One orientation's grid of boxes takes no more volume than the block. */
  lemma GridFits(s: Stock, o: Dims, v: real)
    requires PositiveStock(s) && o.l > 0.0 && o.w > 0.0 && o.h > 0.0 && v == DimsVolume(o)
    ensures TakesAtMost(GridCount(s, o), v, StockVolume(s))
  {
    UsedBounds(s.length, o.l);
    UsedBounds(s.width, o.w);
    UsedBounds(s.height, o.h);
    ProductMono(Used(s.length, o.l), Used(s.width, o.w), Used(s.height, o.h), s.length, s.width, s.height);
    GridVolume(s, o, v);
    assert StockVolume(s) == Product(s.length, s.width, s.height);
  }

  /** The volume of a grid is the product of the lengths it takes along each axis. */
  lemma GridVolume(s: Stock, o: Dims, v: real)
    requires NonZero(o) && v == DimsVolume(o)
    ensures (GridCount(s, o) as real) * v == Product(Used(s.length, o.l), Used(s.width, o.w), Used(s.height, o.h))
  {
    var a, b, c := (s.length / o.l).Floor, (s.width / o.w).Floor, (s.height / o.h).Floor;
    assert (GridCount(s, o) as real) == (a as real) * (b as real) * (c as real);
  }

  /** Every orientation is a reordering of the dimensions, so it has the same volume. */
  lemma OrientationVolume(d: Dims, i: nat)
    requires i < 6
    ensures DimsVolume(Orientations(d)[i]) == DimsVolume(d)
  {
  }

  /** The best count of a block takes no more volume than the block. */
  lemma BestGridFits(s: Stock, d: Dims)
    requires PositiveStock(s) && d.l > 0.0 && d.w > 0.0 && d.h > 0.0
    ensures TakesAtMost(BestGrid(s, d), DimsVolume(d), StockVolume(s))
  {
    var cs := Counts(s, d);
    var n := BestGrid(s, d);
    if n != 0 {
      var i :| 0 <= i < 6 && cs[i] == n;
      var o := Orientations(d)[i];
      OrientationVolume(d, i);
      GridFits(s, o, DimsVolume(d));
    } else {
      PositiveStockVolume(s);
      assert (n as real) * DimsVolume(d) == 0.0;
    }
  }

  lemma TakesNothing(v: real)
    ensures TakesAtMost(0, v, 0.0)
  {
  }

  lemma ScaleLe(x: real, y: real, q: real)
    requires x <= y && q >= 0.0
    ensures x * q <= y * q
  {
    assert (y - x) * q >= 0.0;
  }

  /** Scaling a count and its capacity by the same quantity keeps the bound. */
  lemma TakesAtMostScaled(n: int, v: real, cap: real, q: nat)
    requires TakesAtMost(n, v, cap)
    ensures TakesAtMost(n * q, v, cap * (q as real))
  {
    ScaleLe((n as real) * v, cap, q as real);
    assert ((n * q) as real) * v == ((n as real) * v) * (q as real);
  }

  /** Bounds add up. */
  lemma TakesAtMostSum(n: int, m: int, v: real, a: real, b: real)
    requires TakesAtMost(n, v, a) && TakesAtMost(m, v, b)
    ensures TakesAtMost(n + m, v, a + b)
  {
    assert ((n + m) as real) * v == (n as real) * v + (m as real) * v;
  }

  lemma TakesAtMostSame(n: int, n': int, v: real, v': real, cap: real, cap': real)
    requires TakesAtMost(n, v, cap) && n == n' && v == v' && cap == cap'
    ensures TakesAtMost(n', v', cap')
  {
  }

  /** Bounds add up: the counts of the first block and of the rest fit into their volumes. */
  lemma FitsCons(t: int, n: int, m: int, v: real, cap: real, a: real, b: real)
    requires t == n + m && cap == a + b
    requires TakesAtMost(n, v, a) && TakesAtMost(m, v, b)
    ensures TakesAtMost(t, v, cap)
  {
    TakesAtMostSum(n, m, v, a, b);
  }

  /** A block's count times its quantity takes no more volume than all its copies. */
  lemma WeightedFits(s: Stock, d: Dims)
    requires PositiveStock(s) && d.l > 0.0 && d.w > 0.0 && d.h > 0.0
    ensures TakesAtMost(Weighted(s, d), DimsVolume(d), Share(s))
  {
    BestGridFits(s, d);
    TakesAtMostScaled(BestGrid(s, d), DimsVolume(d), StockVolume(s), s.quantity);
  }

  /** The weighted counts of all blocks take no more volume than all blocks together. */
  lemma {:induction false} GridTotalFits(ss: seq<Stock>, d: Dims)
    requires AllPositiveStocks(ss) && d.l > 0.0 && d.w > 0.0 && d.h > 0.0
    ensures TakesAtMost(GridTotal(ss, d), DimsVolume(d), StockTotal(ss))
  {
    if |ss| > 0 {
      GridTotalFits(ss[1..], d);
      WeightedFits(ss[0], d);
      FitsCons(GridTotal(ss, d), Weighted(ss[0], d), GridTotal(ss[1..], d), DimsVolume(d),
               StockTotal(ss), Share(ss[0]), StockTotal(ss[1..]));
    } else {
      TakesNothing(DimsVolume(d));
    }
  }

  /**
    The count written into the form is physically possible by volume: that
    many pieces take no more volume than all stock blocks with their
    quantities.
   */
  lemma {:induction false} MaxQuantityFits(d: Draft, stocks: seq<Stock>)
    requires Complete(d) && d.length.value > 0.0 && d.width.value > 0.0 && d.height.value > 0.0
    requires AllPositiveStocks(stocks) && |stocks| > 0
    ensures MaxQuantity(d, stocks).Some?
    ensures TakesAtMost(MaxQuantity(d, stocks).value, d.length.value * d.width.value * d.height.value,
                        StockTotal(stocks))
  {
    var dims := Dims(d.length.value, d.width.value, d.height.value);
    GridTotalFits(stocks, dims);
    TakesAtMostSame(GridTotal(stocks, dims), MaxQuantity(d, stocks).value,
                    DimsVolume(dims), d.length.value * d.width.value * d.height.value,
                    StockTotal(stocks), StockTotal(stocks));
  }

  /** Typing the dimensions in any of the six orders gives the same count for a block. */
  lemma OrientationInvariant(s: Stock, d: Dims, i: nat)
    requires NonZero(d) && i < 6
    ensures NonZero(Orientations(d)[i])
    ensures BestGrid(s, Orientations(d)[i]) == BestGrid(s, d)
  {
    var os := Orientations(d);
    var a, b := Counts(s, d), Counts(s, os[i]);
    assert a == [a[0], a[1], a[2], a[3], a[4], a[5]];
    if i == 0 {
      assert b == a;
    } else if i == 1 {
      assert b == [a[1], a[0], a[4], a[5], a[2], a[3]];
    } else if i == 2 {
      assert b == [a[2], a[3], a[0], a[1], a[5], a[4]];
    } else if i == 3 {
      assert b == [a[3], a[2], a[5], a[4], a[0], a[1]];
    } else if i == 4 {
      assert b == [a[4], a[5], a[1], a[0], a[3], a[2]];
    } else {
      assert b == [a[5], a[4], a[3], a[2], a[1], a[0]];
    }
    SameMax(a, b, 0);
  }

  /** The whole count does not depend on the order the dimensions are typed in. */
  lemma {:induction false} GridTotalInvariant(ss: seq<Stock>, d: Dims, i: nat)
    requires NonZero(d) && i < 6
    ensures NonZero(Orientations(d)[i])
    ensures GridTotal(ss, Orientations(d)[i]) == GridTotal(ss, d)
  {
    assert NonZero(Orientations(d)[i]);
    if |ss| > 0 {
      OrientationInvariant(ss[0], d, i);
      GridTotalInvariant(ss[1..], d, i);
    }
  }

  // ---------------------------------------------------------------------------
  // maximizeAllPieces

  /** The order of `sort((a, b) => a.unitVolume - b.unitVolume)`: ascending unit volume. */
  predicate ByVolume(a: Piece, b: Piece) {
    Volume(a) <= Volume(b)
  }

  lemma ByVolumePreorder()
    ensures TotalPreorder(ByVolume)
  {
    assert forall a, b :: ByVolume(a, b) || ByVolume(b, a);
    assert forall a, b, c :: ByVolume(a, b) && ByVolume(b, c) ==> ByVolume(a, c);
  }

  /**
    One pass of the loop with `room` volume still available: `p` gains
    `Math.floor(room / unitVolume)` units, credited to the first entry with
    its identifier, and the volume those units take is consumed. Without
    such an entry nothing changes.
   */
  function Take(p: Piece, pieces: seq<Piece>, room: real): (r: (seq<Piece>, real))
    requires PositivePiece(p) && room >= 0.0
    ensures |r.0| == |pieces|
    ensures forall i :: 0 <= i < |pieces| ==> Grown(pieces[i], r.0[i])
    ensures 0.0 <= r.1 <= room
    ensures FindPieceIndex(pieces, p.id) != -1 ==> room - r.1 < Volume(p)
  {
    PositiveVolume(p);
    var n := (room / Volume(p)).Floor;
    var j := FindPieceIndex(pieces, p.id);
    FloorBounds(room, Volume(p));
    FloorNonNegative(room, Volume(p));
    if n > 0 && j != -1 then (pieces[j := AddUnits(pieces[j], n)], (n as real) * Volume(p))
    else (pieces, 0.0)
  }

  /**
    The loop over the pieces in ascending unit volume, `used` being the
    extra volume handed out so far.
   */
  function Grow(sorted: seq<Piece>, pieces: seq<Piece>, remaining: real, used: real): (r: (seq<Piece>, real))
    requires AllPositivePieces(sorted)
    requires used <= remaining
    ensures |r.0| == |pieces|
    ensures forall i :: 0 <= i < |pieces| ==> Grown(pieces[i], r.0[i])
    ensures used <= r.1 <= remaining
    decreases |sorted|
  {
    if |sorted| == 0 then (pieces, used)
    else
      var t := Take(sorted[0], pieces, remaining - used);
      var r := Grow(sorted[1..], t.0, remaining, used + t.1);
      assert forall i :: 0 <= i < |pieces| ==> Grown(pieces[i], t.0[i]) && Grown(t.0[i], r.0[i]);
      r
  }

  /**
    `maximizeAllPieces`: nothing happens without pieces or when they
    already take all the stock volume; otherwise the remaining volume is
    handed out by `Grow`. Only quantities change, and none decreases.
   */
  function Maximize(pieces: seq<Piece>, stocks: seq<Stock>): (r: seq<Piece>)
    requires AllPositivePieces(pieces)
    ensures |r| == |pieces|
    ensures forall i :: 0 <= i < |pieces| ==> Grown(pieces[i], r[i])
    ensures |pieces| == 0 || PieceTotal(pieces) >= StockTotal(stocks) ==> r == pieces
  {
    var total := StockTotal(stocks);
    var current := PieceTotal(pieces);
    if |pieces| == 0 || current >= total then pieces
    else
      var sorted := SortBy(pieces, ByVolume);
      SortedPositive(pieces, sorted);
      Grow(sorted, pieces, total - current, 0.0).0
  }

  lemma SortedPositive(pieces: seq<Piece>, sorted: seq<Piece>)
    requires AllPositivePieces(pieces) && multiset(sorted) == multiset(pieces)
    ensures AllPositivePieces(sorted)
  {
    forall i | 0 <= i < |sorted|
      ensures PositivePiece(sorted[i])
    {
      assert sorted[i] in multiset(pieces);
    }
  }

  /** `k` is the first index of least unit volume. */
  predicate FirstLeast(ps: seq<Piece>, k: int) {
    && 0 <= k < |ps|
    && (forall i :: 0 <= i < |ps| ==> Volume(ps[k]) <= Volume(ps[i]))
    && (forall i :: 0 <= i < k ==> Volume(ps[k]) < Volume(ps[i]))
  }

  lemma FirstLeastUnique(ps: seq<Piece>, k: int, m: int)
    requires FirstLeast(ps, k) && FirstLeast(ps, m)
    ensures k == m
  {
    assert Volume(ps[k]) <= Volume(ps[m]) && Volume(ps[m]) <= Volume(ps[k]);
  }

  /** The first piece of least unit volume. */
  function Smallest(ps: seq<Piece>): (k: nat)
    requires |ps| > 0
    ensures FirstLeast(ps, k)
  {
    ArgMinFirst(ps, Volume)
  }

  /**
    The sort is stable, so the piece it puts first is the first piece of
    least unit volume.
   */
  lemma {:induction false} SortHead(ps: seq<Piece>)
    requires |ps| > 0
    ensures SortBy(ps, ByVolume)[0] == ps[Smallest(ps)]
  {
    if |ps| > 1 {
      var t := SortBy(ps[1..], ByVolume);
      SortHead(ps[1..]);
      assert SortBy(ps, ByVolume) == Insert(ps[0], t, ByVolume);
      if Volume(ps[0]) <= Volume(t[0]) {
        HeadLeast(ps);
      } else {
        RestLeast(ps);
      }
    }
  }

  /** A first piece no larger than the least of the rest is the first least piece. */
  lemma HeadLeast(ps: seq<Piece>)
    requires |ps| > 1 && Volume(ps[0]) <= Volume(ps[1..][Smallest(ps[1..])])
    ensures Smallest(ps) == 0
  {
    var rest := ps[1..];
    forall i | 0 <= i < |ps|
      ensures Volume(ps[0]) <= Volume(ps[i])
    {
      if i > 0 {
        assert rest[i - 1] == ps[i];
      }
    }
    FirstLeastUnique(ps, 0, Smallest(ps));
  }

  /** A first piece larger than the least of the rest leaves the rest's first least piece first. */
  lemma RestLeast(ps: seq<Piece>)
    requires |ps| > 1 && Volume(ps[1..][Smallest(ps[1..])]) < Volume(ps[0])
    ensures Smallest(ps) == Smallest(ps[1..]) + 1
  {
    var rest := ps[1..];
    var m := Smallest(rest);
    forall i | 0 <= i < |ps|
      ensures Volume(ps[m + 1]) <= Volume(ps[i])
    {
      if i > 0 {
        assert rest[i - 1] == ps[i];
      }
    }
    forall i | 0 <= i < m + 1
      ensures Volume(ps[m + 1]) < Volume(ps[i])
    {
      if i > 0 {
        assert rest[i - 1] == ps[i];
      }
    }
    FirstLeastUnique(ps, m + 1, Smallest(ps));
  }

  /** With less room left than any remaining piece takes, the loop changes nothing. */
  lemma {:induction false} GrowIdle(sorted: seq<Piece>, pieces: seq<Piece>, remaining: real, used: real)
    requires AllPositivePieces(sorted) && used <= remaining
    requires forall i :: 0 <= i < |sorted| ==> remaining - used < Volume(sorted[i])
    ensures Grow(sorted, pieces, remaining, used) == (pieces, used)
  {
    if |sorted| > 0 {
      FloorZero(remaining - used, Volume(sorted[0]));
      GrowIdle(sorted[1..], pieces, remaining, used);
    }
  }

  /** On pieces in ascending unit volume, only the first one can gain, provided it is found. */
  lemma GrowFirstOnly(sorted: seq<Piece>, pieces: seq<Piece>, room: real)
    requires AllPositivePieces(sorted) && |sorted| > 0 && room >= 0.0
    requires forall i :: 0 <= i < |sorted| ==> Volume(sorted[0]) <= Volume(sorted[i])
    requires FindPieceIndex(pieces, sorted[0].id) != -1
    ensures Grow(sorted, pieces, room, 0.0).0 == Take(sorted[0], pieces, room).0
  {
    var t := Take(sorted[0], pieces, room);
    assert Grow(sorted, pieces, room, 0.0) == Grow(sorted[1..], t.0, room, t.1);
    GrowIdle(sorted[1..], t.0, room, t.1);
  }

  /** What the loop amounts to: the first piece of least unit volume gains. */
  function TopUp(pieces: seq<Piece>, room: real): (r: seq<Piece>)
    requires AllPositivePieces(pieces) && |pieces| > 0 && room >= 0.0
  {
    Take(pieces[Smallest(pieces)], pieces, room).0
  }

  /**
    Once the first piece in ascending unit volume has taken as many units
    as fit, the volume left is below its unit volume and so below that of
    every later piece: only the first piece of least unit volume gains.
   */
  lemma MaximizeTopsUpSmallest(pieces: seq<Piece>, stocks: seq<Stock>)
    requires AllPositivePieces(pieces) && |pieces| > 0
    requires PieceTotal(pieces) < StockTotal(stocks)
    ensures Maximize(pieces, stocks) == TopUp(pieces, StockTotal(stocks) - PieceTotal(pieces))
  {
    var sorted := SortBy(pieces, ByVolume);
    SortedPositive(pieces, sorted);
    ByVolumePreorder();
    SortHead(pieces);
    assert forall i :: 0 <= i < |sorted| ==> ByVolume(sorted[0], sorted[i]);
    assert FindPieceIndex(pieces, sorted[0].id) != -1 by {
      var k := Smallest(pieces);
      assert pieces[k].id == sorted[0].id;
    }
    GrowFirstOnly(sorted, pieces, StockTotal(stocks) - PieceTotal(pieces));
  }

  /**
    When the entry credited is a copy of `p` by volume, the pieces' total
    volume grows by exactly the volume the step consumes.
   */
  lemma TakeVolume(p: Piece, pieces: seq<Piece>, room: real)
    requires PositivePiece(p) && room >= 0.0
    requires FindPieceIndex(pieces, p.id) != -1 ==> Volume(pieces[FindPieceIndex(pieces, p.id)]) == Volume(p)
    ensures PieceTotal(Take(p, pieces, room).0) == PieceTotal(pieces) + Take(p, pieces, room).1
  {
    PositiveVolume(p);
    var n := (room / Volume(p)).Floor;
    var j := FindPieceIndex(pieces, p.id);
    if n > 0 && j != -1 {
      PieceTotalAdd(pieces, j, n);
      SameScaled(n, Volume(pieces[j]), Volume(p));
    }
  }

  lemma SameScaled(n: int, v: real, w: real)
    requires v == w
    ensures (n as real) * v == (n as real) * w
  {
  }

  /**
    Topping up never overfills the stock when identifiers are unique, and
    it leaves less volume than any piece takes: not one more unit of any
    piece fits by volume.
   */
  lemma MaximizeFits(pieces: seq<Piece>, stocks: seq<Stock>)
    requires AllPositivePieces(pieces) && UniquePieceIds(pieces) && |pieces| > 0
    requires PieceTotal(pieces) < StockTotal(stocks)
    ensures PieceTotal(Maximize(pieces, stocks)) <= StockTotal(stocks)
    ensures forall i :: 0 <= i < |pieces| ==> StockTotal(stocks) - PieceTotal(Maximize(pieces, stocks)) < Volume(pieces[i])
  {
    var room := StockTotal(stocks) - PieceTotal(pieces);
    var k := Smallest(pieces);
    var t := Take(pieces[k], pieces, room);
    var total := PieceTotal(Maximize(pieces, stocks));
    assert total == PieceTotal(pieces) + t.1 by {
      MaximizeTopsUpSmallest(pieces, stocks);
      assert FindPieceIndex(pieces, pieces[k].id) == k;
      TakeVolume(pieces[k], pieces, room);
    }
    assert room - t.1 < Volume(pieces[k]);
  }

  // ---------------------------------------------------------------------------
  // optimizeWaste

  /** The least total waste, 1000 cm³ (one litre), worth refilling. */
  const MinWaste: real := 1000.0

  /**
    One block of the last result: its stock's volume minus the used share
    `utilization` percent; `None` when no stock carries the block's
    identifier.
   */
  function BlockWaste(l: Layouts.LayoutOut, stocks: seq<Stock>): (w: Option<real>)
    ensures w.None? <==> FindStock(stocks, l.stockId).None?
  {
    match FindStock(stocks, l.stockId)
    case None => None
    case Some(s) =>
      var total := StockVolume(s);
      Some(total - (total * l.utilization) / 100.0)
  }

  /** A utilization between 0 and 100 percent leaves between nothing and the whole block. */
  lemma BlockWasteBounds(l: Layouts.LayoutOut, stocks: seq<Stock>)
    requires AllPositiveStocks(stocks) && 0.0 <= l.utilization <= 100.0
    requires FindStock(stocks, l.stockId).Some?
    ensures 0.0 <= BlockWaste(l, stocks).value <= StockVolume(FindStock(stocks, l.stockId).value)
  {
    var s := FindStock(stocks, l.stockId).value;
    var i :| 0 <= i < |stocks| && stocks[i] == s;
    PositiveStockVolume(s);
    PercentBounds(StockVolume(s), l.utilization);
  }

  lemma PercentBounds(total: real, u: real)
    requires total > 0.0 && 0.0 <= u <= 100.0
    ensures 0.0 <= total - (total * u) / 100.0 <= total
  {
    assert total * u >= 0.0;
    assert total * (100.0 - u) >= 0.0;
  }

  /** The wastes of the blocks whose stock is found, in order. */
  function Wastes(ls: seq<Layouts.LayoutOut>, stocks: seq<Stock>): (ws: seq<real>)
    ensures |ws| <= |ls|
  {
    if |ls| == 0 then []
    else
      match BlockWaste(ls[0], stocks)
      case None => Wastes(ls[1..], stocks)
      case Some(w) => [w] + Wastes(ls[1..], stocks)
  }

  /** Every waste is the waste of some block of the result. */
  lemma {:induction false} WastesFromBlocks(ls: seq<Layouts.LayoutOut>, stocks: seq<Stock>)
    ensures forall k :: 0 <= k < |Wastes(ls, stocks)| ==>
              exists i :: 0 <= i < |ls| && BlockWaste(ls[i], stocks) == Some(Wastes(ls, stocks)[k])
  {
    if |ls| > 0 {
      var rest := ls[1..];
      var wr := Wastes(rest, stocks);
      var ws := Wastes(ls, stocks);
      WastesFromBlocks(rest, stocks);
      forall k | 0 <= k < |Wastes(ls, stocks)|
        ensures exists i :: 0 <= i < |ls| && BlockWaste(ls[i], stocks) == Some(Wastes(ls, stocks)[k])
      {
        var j := k;
        if BlockWaste(ls[0], stocks).Some? {
          assert ws == [BlockWaste(ls[0], stocks).value] + wr;
          j := k - 1;
        } else {
          assert ws == wr;
        }
        if j < 0 {
          assert BlockWaste(ls[0], stocks) == Some(ws[k]);
        } else {
          assert ws[k] == wr[j];
          var i :| 0 <= i < |rest| && BlockWaste(rest[i], stocks) == Some(wr[j]);
          assert rest[i] == ls[i + 1];
        }
      }
    } else {
      assert |Wastes(ls, stocks)| == 0;
    }
  }

  /** When every block's stock is found, no block is dropped. */
  lemma {:induction false} WastesAllFound(ls: seq<Layouts.LayoutOut>, stocks: seq<Stock>)
    requires forall i :: 0 <= i < |ls| ==> FindStock(stocks, ls[i].stockId).Some?
    ensures |Wastes(ls, stocks)| == |ls|
    ensures forall i :: 0 <= i < |ls| ==> Some(Wastes(ls, stocks)[i]) == BlockWaste(ls[i], stocks)
  {
    if |ls| > 0 {
      var rest := ls[1..];
      assert forall i :: 0 <= i < |rest| ==> FindStock(stocks, rest[i].stockId).Some? by {
        forall i | 0 <= i < |rest| ensures FindStock(stocks, rest[i].stockId).Some? {
          assert rest[i] == ls[i + 1];
        }
      }
      WastesAllFound(rest, stocks);
      assert Wastes(ls, stocks) == [BlockWaste(ls[0], stocks).value] + Wastes(rest, stocks);
      forall i | 0 <= i < |ls|
        ensures Some(Wastes(ls, stocks)[i]) == BlockWaste(ls[i], stocks)
      {
        if i > 0 {
          assert ls[i] == rest[i - 1];
        }
      }
    }
  }

  /** `Σ Math.floor(waste / unitVolume)`: how many units fit into each block's waste, summed. */
  function Refills(ws: seq<real>, v: real): int
    requires v > 0.0
  {
    if |ws| == 0 then 0 else (ws[0] / v).Floor + Refills(ws[1..], v)
  }

  /** The refilled units take no more volume than the waste they are cut from. */
  lemma {:induction false} RefillsFit(ws: seq<real>, v: real)
    requires v > 0.0
    ensures TakesAtMost(Refills(ws, v), v, Sum(ws))
  {
    if |ws| > 0 {
      RefillsFit(ws[1..], v);
      FloorBounds(ws[0], v);
      FitsCons(Refills(ws, v), (ws[0] / v).Floor, Refills(ws[1..], v), v, Sum(ws), ws[0], Sum(ws[1..]));
    } else {
      TakesNothing(v);
    }
  }

  /** `pieces.map(...)`: every entry carrying `id` gains `n` units. */
  function Credit(pieces: seq<Piece>, id: string, n: nat): (r: seq<Piece>)
    ensures |r| == |pieces|
    ensures forall i :: 0 <= i < |pieces| ==> Grown(pieces[i], r[i])
    ensures forall i :: 0 <= i < |pieces| ==> (r[i] == pieces[i] <==> pieces[i].id != id || n == 0)
  {
    seq(|pieces|, i requires 0 <= i < |pieces| => if pieces[i].id == id then AddUnits(pieces[i], n) else pieces[i])
  }

  /** With unique identifiers the credit goes to one entry only. */
  lemma CreditOne(pieces: seq<Piece>, k: nat, n: nat)
    requires UniquePieceIds(pieces) && k < |pieces|
    ensures Credit(pieces, pieces[k].id, n) == pieces[k := AddUnits(pieces[k], n)]
  {
  }

  /**
    `optimizeWaste`: without a last result, without pieces (the `reduce`
    over no pieces throws and the error is caught), or with less than
    `MinWaste` of waste, nothing changes. Otherwise every entry with the
    identifier of the first piece of least unit volume gains the number of
    its units that fit into the blocks' wastes, if that is positive.
   */
  function OptimizeWaste(last: Option<seq<Layouts.LayoutOut>>, pieces: seq<Piece>, stocks: seq<Stock>): (r: seq<Piece>)
    requires AllPositivePieces(pieces)
    ensures |r| == |pieces|
    ensures forall i :: 0 <= i < |pieces| ==> Grown(pieces[i], r[i])
    ensures last.None? || |pieces| == 0 || Sum(Wastes(last.value, stocks)) < MinWaste ==> r == pieces
  {
    if last.None? then pieces
    else
      var ws := Wastes(last.value, stocks);
      if Sum(ws) < MinWaste || |pieces| == 0 then pieces
      else
        var n := RefillCount(ws, pieces);
        if n > 0 then Credit(pieces, pieces[Smallest(pieces)].id, n) else pieces
  }

  /** The units of the first piece of least unit volume that fit into the wastes. */
  function RefillCount(ws: seq<real>, pieces: seq<Piece>): int
    requires AllPositivePieces(pieces) && |pieces| > 0
  {
    var s := pieces[Smallest(pieces)];
    PositiveVolume(s);
    Refills(ws, Volume(s))
  }

  /** With unique identifiers, the refill goes to the first piece of least unit volume alone. */
  lemma {:induction false} OptimizeWasteRefillsSmallest(ls: seq<Layouts.LayoutOut>, pieces: seq<Piece>, stocks: seq<Stock>)
    requires AllPositivePieces(pieces) && UniquePieceIds(pieces) && |pieces| > 0
    requires Sum(Wastes(ls, stocks)) >= MinWaste
    ensures var n := RefillCount(Wastes(ls, stocks), pieces);
            var k := Smallest(pieces);
            OptimizeWaste(Some(ls), pieces, stocks) == if n > 0 then pieces[k := AddUnits(pieces[k], n)] else pieces
  {
    var n := RefillCount(Wastes(ls, stocks), pieces);
    if n > 0 {
      CreditOne(pieces, Smallest(pieces), n);
    }
  }

  /**
    The refill is physically possible by volume: with unique identifiers
    the pieces grow by no more than the waste they are cut from.
   */
  lemma {:induction false} OptimizeWasteFits(ls: seq<Layouts.LayoutOut>, pieces: seq<Piece>, stocks: seq<Stock>)
    requires AllPositivePieces(pieces) && UniquePieceIds(pieces) && |pieces| > 0
    requires Sum(Wastes(ls, stocks)) >= MinWaste
    ensures PieceTotal(OptimizeWaste(Some(ls), pieces, stocks)) <= PieceTotal(pieces) + Sum(Wastes(ls, stocks))
  {
    var ws := Wastes(ls, stocks);
    var k := Smallest(pieces);
    var n := RefillCount(ws, pieces);
    OptimizeWasteRefillsSmallest(ls, pieces, stocks);
    if n > 0 {
      PositiveVolume(pieces[k]);
      RefillFits(pieces, k, ws, n);
    }
  }

  /** Crediting one entry with the units of it that fit into the wastes adds no more than the wastes. */
  lemma RefillFits(pieces: seq<Piece>, k: nat, ws: seq<real>, n: nat)
    requires k < |pieces| && Volume(pieces[k]) > 0.0 && n == Refills(ws, Volume(pieces[k]))
    ensures PieceTotal(pieces[k := AddUnits(pieces[k], n)]) <= PieceTotal(pieces) + Sum(ws)
  {
    var v := Volume(pieces[k]);
    assert TakesAtMost(n, v, Sum(ws)) by {
      RefillsFit(ws, v);
      TakesAtMostSame(Refills(ws, v), n, v, v, Sum(ws), Sum(ws));
    }
    PieceTotalAdd(pieces, k, n);
    GrowsWithin(PieceTotal(pieces[k := AddUnits(pieces[k], n)]), PieceTotal(pieces), n, v, Sum(ws));
  }

  lemma GrowsWithin(total: real, base: real, n: int, v: real, cap: real)
    requires total == base + (n as real) * v && TakesAtMost(n, v, cap)
    ensures total <= base + cap
  {
  }

  /** The pieces change exactly when at least one unit fits into the wastes. */
  lemma {:induction false} OptimizeWasteChanges(ls: seq<Layouts.LayoutOut>, pieces: seq<Piece>, stocks: seq<Stock>)
    requires AllPositivePieces(pieces) && UniquePieceIds(pieces) && |pieces| > 0
    requires Sum(Wastes(ls, stocks)) >= MinWaste
    ensures OptimizeWaste(Some(ls), pieces, stocks) != pieces <==> RefillCount(Wastes(ls, stocks), pieces) > 0
  {
    var k := Smallest(pieces);
    OptimizeWasteRefillsSmallest(ls, pieces, stocks);
    if RefillCount(Wastes(ls, stocks), pieces) > 0 {
      assert OptimizeWaste(Some(ls), pieces, stocks)[k] != pieces[k];
    }
  }


}
