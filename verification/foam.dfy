/**
  The shared data model of the foam cutting optimizer: pieces to cut, stock
  blocks to cut them from, the expansion of a piece with a quantity into one
  instance per unit, instance identifiers, lookups by identifier and the
  centimetre to millimetre conversion applied before the greedy packer runs.
 */
module Foam {
  import opened Sorting

  datatype Option<T> = None | Some(value: T)

  /** A requested cuboid with a quantity; `color` is passed through untouched. */
  datatype Piece = Piece(
    id: string,
    length: real,
    width: real,
    height: real,
    quantity: nat,
    caption: string,
    color: Option<string>)

  /** A raw block of foam, available `quantity` times, with an optional unit price. */
  datatype Stock = Stock(
    id: string,
    length: real,
    width: real,
    height: real,
    quantity: nat,
    caption: string,
    price: Option<real>)

  function Volume(p: Piece): real {
    p.length * p.width * p.height
  }

  function StockVolume(s: Stock): real {
    s.length * s.width * s.height
  }

  predicate PositivePiece(p: Piece) {
    p.length > 0.0 && p.width > 0.0 && p.height > 0.0
  }

  predicate PositiveStock(s: Stock) {
    s.length > 0.0 && s.width > 0.0 && s.height > 0.0
  }

  predicate AllPositivePieces(ps: seq<Piece>) {
    forall i :: 0 <= i < |ps| ==> PositivePiece(ps[i])
  }

  predicate AllPositiveStocks(ss: seq<Stock>) {
    forall i :: 0 <= i < |ss| ==> PositiveStock(ss[i])
  }

  lemma PositiveVolume(p: Piece)
    requires PositivePiece(p)
    ensures Volume(p) > 0.0
  {
    assert p.length * p.width > 0.0;
  }

  lemma PositiveStockVolume(s: Stock)
    requires PositiveStock(s)
    ensures StockVolume(s) > 0.0
  {
    assert s.length * s.width > 0.0;
  }

  /** `stock.price || 0`: a missing price counts as zero. */
  function PriceOf(s: Stock): real {
    match s.price
    case Some(p) => p
    case None => 0.0
  }

  function SumQuantities(ps: seq<Piece>): nat {
    if |ps| == 0 then 0 else ps[0].quantity + SumQuantities(ps[1..])
  }

  // ---------------------------------------------------------------------------
  // Decimal rendering of instance numbers, with its parser as partner

  function DigitChar(d: nat): (c: char)
    requires d < 10
    ensures '0' <= c <= '9'
    ensures (c as int) - ('0' as int) == d
  {
    (('0' as int) + d) as char
  }

  predicate IsDigits(s: string) {
    forall i :: 0 <= i < |s| ==> '0' <= s[i] <= '9'
  }

  /** The decimal text of `n`, as a template literal renders a non-negative integer. */
  function NatToString(n: nat): (s: string)
    ensures |s| > 0
    ensures IsDigits(s)
  {
    if n < 10 then [DigitChar(n)] else NatToString(n / 10) + [DigitChar(n % 10)]
  }

  /** Reads a string of decimal digits back into its value. */
  function ParseNat(s: string): nat
    requires IsDigits(s)
  {
    if |s| == 0 then 0
    else ParseNat(s[..|s| - 1]) * 10 + ((s[|s| - 1] as int) - ('0' as int))
  }

  lemma {:induction false} ParseNatToString(n: nat)
    ensures ParseNat(NatToString(n)) == n
  {
    var s := NatToString(n);
    if n >= 10 {
      ParseNatToString(n / 10);
      assert s[..|s| - 1] == NatToString(n / 10);
    }
  }

  lemma NatToStringInjective(a: nat, b: nat)
    requires NatToString(a) == NatToString(b)
    ensures a == b
  {
    ParseNatToString(a);
    ParseNatToString(b);
  }

  /** The identifier `${id}_${i}` of the i-th unit of a piece. */
  function InstanceId(id: string, i: nat): string {
    id + "_" + NatToString(i)
  }

  /** In `a + "_" + rest`, the first underscore sits right after `a`. */
  lemma UnderscoreAfterPrefix(a: string, rest: string)
    requires '_' !in a
    ensures (a + "_" + rest)[|a|] == '_'
    ensures forall k :: 0 <= k < |a| ==> (a + "_" + rest)[k] != '_'
  {
    forall k | 0 <= k < |a|
      ensures (a + "_" + rest)[k] != '_'
    {
      assert (a + "_" + rest)[k] == a[k];
    }
  }

  /** Distinct (piece id, unit number) pairs give distinct instance identifiers,
      provided piece identifiers carry no underscore. */
  lemma InstanceIdInjective(a: string, i: nat, b: string, j: nat)
    requires '_' !in a && '_' !in b
    requires InstanceId(a, i) == InstanceId(b, j)
    ensures a == b && i == j
  {
    var s := InstanceId(a, i);
    var t := InstanceId(b, j);
    UnderscoreAfterPrefix(a, NatToString(i));
    UnderscoreAfterPrefix(b, NatToString(j));
    assert |a| == |b|;
    assert a == s[..|a|] == t[..|b|] == b;
    assert NatToString(i) == s[|a| + 1..] == t[|b| + 1..] == NatToString(j);
    NatToStringInjective(i, j);
  }

  // ---------------------------------------------------------------------------
  // expandPieces

  /** Units `from`, `from + 1`, ... of `p`, each with quantity 1. */
  function ExpandUnits(p: Piece, from: nat): (r: seq<Piece>)
    decreases p.quantity - from
    ensures |r| == if from <= p.quantity then p.quantity - from else 0
    ensures forall k :: 0 <= k < |r| ==>
      r[k] == p.(id := InstanceId(p.id, from + k), quantity := 1)
  {
    if from >= p.quantity then []
    else [p.(id := InstanceId(p.id, from), quantity := 1)] + ExpandUnits(p, from + 1)
  }

  /** One instance per unit of quantity, piece by piece, in input order. */
  function ExpandPieces(ps: seq<Piece>): (r: seq<Piece>)
    ensures |r| == SumQuantities(ps)
    ensures forall k :: 0 <= k < |r| ==> r[k].quantity == 1
    ensures AllPositivePieces(ps) ==> AllPositivePieces(r)
  {
    if |ps| == 0 then [] else ExpandUnits(ps[0], 0) + ExpandPieces(ps[1..])
  }

  /** `x` is unit number `u` of some piece of `ps`. */
  ghost predicate IsUnitOf(x: Piece, ps: seq<Piece>) {
    exists i, u :: 0 <= i < |ps| && 0 <= u < ps[i].quantity &&
      x == ps[i].(id := InstanceId(ps[i].id, u), quantity := 1)
  }

  /** Every instance is a unit of some input piece: same shape, numbered below its quantity. */
  lemma {:induction false} ExpandedAreUnits(ps: seq<Piece>)
    ensures forall k :: 0 <= k < |ExpandPieces(ps)| ==> IsUnitOf(ExpandPieces(ps)[k], ps)
  {
    if |ps| > 0 {
      ExpandedAreUnits(ps[1..]);
      var head := ExpandUnits(ps[0], 0);
      var tail := ExpandPieces(ps[1..]);
      assert ExpandPieces(ps) == head + tail;
      forall k | 0 <= k < |ExpandPieces(ps)|
        ensures IsUnitOf(ExpandPieces(ps)[k], ps)
      {
        if k < |head| {
          assert ExpandPieces(ps)[k] == ps[0].(id := InstanceId(ps[0].id, k), quantity := 1);
        } else {
          var t := k - |head|;
          assert ExpandPieces(ps)[k] == tail[t];
          assert IsUnitOf(tail[t], ps[1..]);
          var i, u :| 0 <= i < |ps[1..]| && 0 <= u < ps[1..][i].quantity &&
            tail[t] == ps[1..][i].(id := InstanceId(ps[1..][i].id, u), quantity := 1);
          assert ps[1..][i] == ps[i + 1];
        }
      }
    }
  }

  predicate NoUnderscoreIds(ps: seq<Piece>) {
    forall i :: 0 <= i < |ps| ==> '_' !in ps[i].id
  }

  /** Pieces with distinct, underscore-free identifiers expand into instances
      with pairwise distinct identifiers. */
  lemma {:induction false} ExpandedIdsUnique(ps: seq<Piece>)
    requires UniquePieceIds(ps) && NoUnderscoreIds(ps)
    ensures UniquePieceIds(ExpandPieces(ps))
  {
    if |ps| > 0 {
      var head := ExpandUnits(ps[0], 0);
      var tail := ExpandPieces(ps[1..]);
      var r := ExpandPieces(ps);
      assert r == head + tail;
      assert UniquePieceIds(ps[1..]) && NoUnderscoreIds(ps[1..]);
      ExpandedIdsUnique(ps[1..]);
      forall a, b | 0 <= a < b < |r|
        ensures r[a].id != r[b].id
      {
        if b < |head| {
          if r[a].id == r[b].id {
            InstanceIdInjective(ps[0].id, a, ps[0].id, b);
          }
        } else if a >= |head| {
          assert r[a] == tail[a - |head|] && r[b] == tail[b - |head|];
        } else {
          assert r[a] == head[a] && r[b] == tail[b - |head|];
          HeadIdNotInTail(ps, a, b - |head|);
        }
      }
    }
  }

  /** A unit of the first piece never shares its identifier with a unit of a later piece. */
  lemma HeadIdNotInTail(ps: seq<Piece>, a: nat, t: nat)
    requires UniquePieceIds(ps) && NoUnderscoreIds(ps)
    requires |ps| > 0 && a < ps[0].quantity && t < |ExpandPieces(ps[1..])|
    ensures ExpandUnits(ps[0], 0)[a].id != ExpandPieces(ps[1..])[t].id
  {
    var tail := ExpandPieces(ps[1..]);
    ExpandedAreUnits(ps[1..]);
    assert IsUnitOf(tail[t], ps[1..]);
    var i, u :| 0 <= i < |ps[1..]| && 0 <= u < ps[1..][i].quantity &&
      tail[t] == ps[1..][i].(id := InstanceId(ps[1..][i].id, u), quantity := 1);
    assert ps[1..][i] == ps[i + 1];
    if ExpandUnits(ps[0], 0)[a].id == tail[t].id {
      InstanceIdInjective(ps[0].id, a, ps[i + 1].id, u);
      assert false;
    }
  }

  // ---------------------------------------------------------------------------
  // Lookups: Array.prototype.find / findIndex by identifier

  /** `find` by a key: the first element whose key is `id`, or nothing. */
  function FindBy<T>(xs: seq<T>, key: T -> string, id: string): (r: Option<T>)
    ensures r.Some? ==> exists i :: 0 <= i < |xs| && xs[i] == r.value && key(xs[i]) == id &&
                                    forall j :: 0 <= j < i ==> key(xs[j]) != id
    ensures r.None? ==> forall i :: 0 <= i < |xs| ==> key(xs[i]) != id
  {
    if |xs| == 0 then None
    else if key(xs[0]) == id then Some(xs[0])
    else
      var r := FindBy(xs[1..], key, id);
      assert r.Some? ==> exists i :: 0 <= i < |xs| - 1 && xs[1..][i] == r.value && key(xs[1..][i]) == id &&
                                     forall j :: 0 <= j < i ==> key(xs[1..][j]) != id;
      assert r.Some? ==> exists i :: 1 <= i < |xs| && xs[i] == r.value && key(xs[i]) == id &&
                                     forall j :: 0 <= j < i ==> key(xs[j]) != id;
      r
  }

  function StockId(s: Stock): string { s.id }

  function PieceId(p: Piece): string { p.id }

  function FindStock(ss: seq<Stock>, id: string): (r: Option<Stock>)
    ensures r.Some? ==> r.value in ss && r.value.id == id
    ensures r.None? ==> forall i :: 0 <= i < |ss| ==> ss[i].id != id
  {
    FindBy(ss, StockId, id)
  }

  function FindPiece(ps: seq<Piece>, id: string): (r: Option<Piece>)
    ensures r.Some? ==> r.value in ps && r.value.id == id
    ensures r.None? ==> forall i :: 0 <= i < |ps| ==> ps[i].id != id
  {
    FindBy(ps, PieceId, id)
  }

  /** `findIndex` by identifier: the first position holding `id`, or -1. */
  function FindPieceIndex(ps: seq<Piece>, id: string): (r: int)
    ensures -1 <= r < |ps|
    ensures r >= 0 ==> ps[r].id == id && forall j :: 0 <= j < r ==> ps[j].id != id
    ensures r == -1 ==> forall j :: 0 <= j < |ps| ==> ps[j].id != id
  {
    if |ps| == 0 then -1
    else if ps[0].id == id then 0
    else
      var k := FindPieceIndex(ps[1..], id);
      if k == -1 then -1 else k + 1
  }

  predicate UniquePieceIds(ps: seq<Piece>) {
    forall i, j :: 0 <= i < j < |ps| ==> ps[i].id != ps[j].id
  }

  // ---------------------------------------------------------------------------
  // Centimetre to millimetre conversion (and back)

  function PieceToMillimetres(p: Piece): Piece {
    p.(length := p.length * 10.0, width := p.width * 10.0, height := p.height * 10.0)
  }

  function PieceToCentimetres(p: Piece): Piece {
    p.(length := p.length / 10.0, width := p.width / 10.0, height := p.height / 10.0)
  }

  function StockToMillimetres(s: Stock): Stock {
    s.(length := s.length * 10.0, width := s.width * 10.0, height := s.height * 10.0)
  }

  function StockToCentimetres(s: Stock): Stock {
    s.(length := s.length / 10.0, width := s.width / 10.0, height := s.height / 10.0)
  }

  /** Every piece scaled by ten along each axis; identity, quantity, caption and color kept. */
  function PiecesToMillimetres(ps: seq<Piece>): (r: seq<Piece>)
    ensures |r| == |ps|
    ensures forall i :: 0 <= i < |ps| ==>
      r[i].id == ps[i].id && r[i].quantity == ps[i].quantity &&
      r[i].caption == ps[i].caption && r[i].color == ps[i].color &&
      Volume(r[i]) == 1000.0 * Volume(ps[i])
    ensures forall i :: 0 <= i < |ps| ==> PieceToCentimetres(r[i]) == ps[i]
  {
    seq(|ps|, i requires 0 <= i < |ps| => PieceToMillimetres(ps[i]))
  }

  /** Every stock block scaled by ten along each axis; identity, quantity, caption and price kept. */
  function StocksToMillimetres(ss: seq<Stock>): (r: seq<Stock>)
    ensures |r| == |ss|
    ensures forall i :: 0 <= i < |ss| ==>
      r[i].id == ss[i].id && r[i].quantity == ss[i].quantity &&
      r[i].caption == ss[i].caption && r[i].price == ss[i].price &&
      StockVolume(r[i]) == 1000.0 * StockVolume(ss[i])
    ensures forall i :: 0 <= i < |ss| ==> StockToCentimetres(r[i]) == ss[i]
  {
    seq(|ss|, i requires 0 <= i < |ss| => StockToMillimetres(ss[i]))
  }

  // ---------------------------------------------------------------------------
  // Identifier lists

  /** The identifiers of the pieces, in order. */
  function Ids(ps: seq<Piece>): (r: seq<string>)
    ensures |r| == |ps| && forall i :: 0 <= i < |ps| ==> r[i] == ps[i].id
  {
    seq(|ps|, i requires 0 <= i < |ps| => ps[i].id)
  }

  lemma IdsAppend(a: seq<Piece>, b: seq<Piece>)
    ensures Ids(a + b) == Ids(a) + Ids(b)
  {
  }

  lemma IdsOfPermutation(s: seq<Piece>, t: seq<Piece>)
    requires multiset(s) == multiset(t)
    ensures multiset(Ids(s)) == multiset(Ids(t))
  {
    var id := (p: Piece) => p.id;
    assert Ids(s) == MapSeq(s, id) && Ids(t) == MapSeq(t, id);
    MapSeqPermutation(s, t, id);
  }
}
