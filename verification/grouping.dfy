/**
  Grouping assignments by stock type, as `genesToLayouts` and
  `solutionToLayouts` do with a `Map` keyed by stock identifier: a reference
  definition by first appearance, and the loop proved equal to it.
 */
module Grouping {
  import opened Sorting
  import opened Foam
  import opened Geometry
  import opened Assignments

  // ---------------------------------------------------------------------------
  // Grouping by stock type: the reference definition

  /** The stock identifiers in order of first appearance. */
  function StockOrder(xs: seq<Assignment>): (r: seq<string>)
    ensures NoDuplicates(r)
    ensures forall i :: 0 <= i < |xs| ==> xs[i].stockId in r
    ensures forall k :: 0 <= k < |r| ==> exists i :: 0 <= i < |xs| && xs[i].stockId == r[k]
  {
    if |xs| == 0 then []
    else
      var prefix := StockOrder(xs[..|xs| - 1]);
      var last := xs[|xs| - 1];
      assert forall i :: 0 <= i < |xs| - 1 ==> xs[i] == xs[..|xs| - 1][i];
      if last.stockId in prefix then prefix else prefix + [last.stockId]
  }

  /** The assignments to stock type `id`, in their original order. */
  function Members(xs: seq<Assignment>, id: string): (r: seq<Assignment>)
    ensures multiset(r) <= multiset(xs)
    ensures forall k :: 0 <= k < |r| ==> r[k].stockId == id
    ensures forall i :: 0 <= i < |xs| && xs[i].stockId == id ==> xs[i] in r
  {
    if |xs| == 0 then []
    else
      var prefix := Members(xs[..|xs| - 1], id);
      var last := xs[|xs| - 1];
      assert xs == xs[..|xs| - 1] + [last];
      if last.stockId == id then prefix + [last] else prefix
  }

  lemma StockOrderSnoc(p: seq<Assignment>, a: Assignment)
    ensures StockOrder(p + [a]) == if a.stockId in StockOrder(p) then StockOrder(p) else StockOrder(p) + [a.stockId]
  {
    assert (p + [a])[..|p|] == p;
  }

  lemma MembersSnoc(p: seq<Assignment>, a: Assignment, id: string)
    ensures Members(p + [a], id) == if a.stockId == id then Members(p, id) + [a] else Members(p, id)
  {
    assert (p + [a])[..|p|] == p;
  }

  lemma {:induction false} MembersOfAbsent(xs: seq<Assignment>, id: string)
    requires id !in StockOrder(xs)
    ensures Members(xs, id) == []
  {
    if |xs| > 0 {
      var p := xs[..|xs| - 1];
      var a := xs[|xs| - 1];
      assert xs == p + [a];
      StockOrderSnoc(p, a);
      MembersSnoc(p, a, id);
      MembersOfAbsent(p, id);
    }
  }

  // ---------------------------------------------------------------------------
  // Grouping by stock type: the `Map`-based loop

  datatype Group = Group(stockId: string, members: seq<Assignment>)

  /** `layoutMap.has(id)` / `layoutMap.get(id)`: the position of the group for `id`, or -1. */
  function GroupIndex(gs: seq<Group>, id: string): (k: int)
    ensures -1 <= k < |gs|
    ensures k >= 0 ==> gs[k].stockId == id
    ensures k == -1 ==> forall j :: 0 <= j < |gs| ==> gs[j].stockId != id
  {
    if |gs| == 0 then -1
    else
      var k := GroupIndex(gs[..|gs| - 1], id);
      if k >= 0 then k else if gs[|gs| - 1].stockId == id then |gs| - 1 else -1
  }

  /** One `forEach` step: open a group for a new stock type, then push the assignment onto its group. */
  function AddToGroups(gs: seq<Group>, a: Assignment): seq<Group>
  {
    var k := GroupIndex(gs, a.stockId);
    if k < 0 then gs + [Group(a.stockId, [a])]
    else gs[k := gs[k].(members := gs[k].members + [a])]
  }

  /** The `forEach` over the assignments. */
  function GroupByStock(xs: seq<Assignment>): seq<Group>
  {
    if |xs| == 0 then [] else AddToGroups(GroupByStock(xs[..|xs| - 1]), xs[|xs| - 1])
  }

  /** One step opens at most one group, and never leaves a group empty. */
  lemma AddToGroupsShape(gs: seq<Group>, a: Assignment)
    ensures |gs| <= |AddToGroups(gs, a)| <= |gs| + 1
    ensures (forall k :: 0 <= k < |gs| ==> |gs[k].members| > 0) ==>
      forall k :: 0 <= k < |AddToGroups(gs, a)| ==> |AddToGroups(gs, a)[k].members| > 0
  {
  }

  /** No more groups than assignments, and none of them empty. */
  lemma {:induction false} GroupByStockShape(xs: seq<Assignment>)
    ensures |GroupByStock(xs)| <= |xs|
    ensures forall k :: 0 <= k < |GroupByStock(xs)| ==> |GroupByStock(xs)[k].members| > 0
  {
    if |xs| > 0 {
      GroupByStockShape(xs[..|xs| - 1]);
      AddToGroupsShape(GroupByStock(xs[..|xs| - 1]), xs[|xs| - 1]);
    }
  }

  /** Group `k` is the `k`-th stock type seen, with all of its assignments in order. */
  ghost predicate GroupsMatch(g: seq<Group>, xs: seq<Assignment>) {
    var o := StockOrder(xs);
    |g| == |o| && forall k :: 0 <= k < |g| ==> g[k] == Group(o[k], Members(xs, o[k]))
  }

  /** The loop builds exactly the reference grouping. */
  lemma {:induction false} GroupByStockSpec(xs: seq<Assignment>)
    ensures GroupsMatch(GroupByStock(xs), xs)
  {
    if |xs| > 0 {
      var p := xs[..|xs| - 1];
      var a := xs[|xs| - 1];
      assert xs == p + [a];
      GroupByStockSpec(p);
      assert GroupByStock(xs) == AddToGroups(GroupByStock(p), a);
      AddToGroupsMatch(GroupByStock(p), p, a);
    }
  }

  lemma AddToGroupsMatch(gp: seq<Group>, p: seq<Assignment>, a: Assignment)
    requires GroupsMatch(gp, p)
    ensures GroupsMatch(AddToGroups(gp, a), p + [a])
  {
    if GroupIndex(gp, a.stockId) < 0 {
      AddToNewGroup(gp, p, a);
    } else {
      AddToExistingGroup(gp, p, a);
    }
  }

  lemma AddToNewGroup(gp: seq<Group>, p: seq<Assignment>, a: Assignment)
    requires GroupsMatch(gp, p) && GroupIndex(gp, a.stockId) < 0
    ensures GroupsMatch(AddToGroups(gp, a), p + [a])
  {
    MembersSnocAll(p, a);
    AbsentFromOrder(gp, p, a.stockId);
    NewGroupMatch(gp, p, a);
  }

  lemma AddToExistingGroup(gp: seq<Group>, p: seq<Assignment>, a: Assignment)
    requires GroupsMatch(gp, p) && GroupIndex(gp, a.stockId) >= 0
    ensures GroupsMatch(AddToGroups(gp, a), p + [a])
  {
    var k := GroupIndex(gp, a.stockId);
    MembersSnocAll(p, a);
    assert gp[k] == Group(StockOrder(p)[k], Members(p, StockOrder(p)[k]));
    ExistingGroupMatch(gp, p, a, k);
  }

  lemma MembersSnocAll(p: seq<Assignment>, a: Assignment)
    ensures forall j :: 0 <= j < |StockOrder(p)| ==>
      Members(p + [a], StockOrder(p)[j]) == if StockOrder(p)[j] == a.stockId then Members(p, StockOrder(p)[j]) + [a] else Members(p, StockOrder(p)[j])
  {
    var op := StockOrder(p);
    forall j | 0 <= j < |op|
      ensures Members(p + [a], op[j]) == if op[j] == a.stockId then Members(p, op[j]) + [a] else Members(p, op[j])
    {
      MembersSnoc(p, a, op[j]);
    }
  }

  /** A stock type without a group has not been seen. */
  lemma AbsentFromOrder(gp: seq<Group>, p: seq<Assignment>, id: string)
    requires GroupsMatch(gp, p) && GroupIndex(gp, id) < 0
    ensures id !in StockOrder(p)
  {
    var op := StockOrder(p);
    forall j | 0 <= j < |op|
      ensures op[j] != id
    {
      assert gp[j].stockId == op[j];
    }
  }

  lemma NewGroupMatch(gp: seq<Group>, p: seq<Assignment>, a: Assignment)
    requires GroupsMatch(gp, p) && a.stockId !in StockOrder(p)
    requires forall j :: 0 <= j < |StockOrder(p)| ==>
      Members(p + [a], StockOrder(p)[j]) == if StockOrder(p)[j] == a.stockId then Members(p, StockOrder(p)[j]) + [a] else Members(p, StockOrder(p)[j])
    ensures GroupsMatch(gp + [Group(a.stockId, [a])], p + [a])
  {
    var g := gp + [Group(a.stockId, [a])];
    var o := StockOrder(p + [a]);
    assert |o| == |g| by { StockOrderSnoc(p, a); }
    forall j | 0 <= j < |g|
      ensures g[j] == Group(o[j], Members(p + [a], o[j]))
    {
      if j < |gp| {
        assert StockOrder(p)[j] != a.stockId;
        KeptGroup(gp, p, a, j);
      } else {
        OpenedGroup(gp, p, a);
      }
    }
  }

  /** A group opened before the new assignment's stock type is unchanged. */
  lemma KeptGroup(gp: seq<Group>, p: seq<Assignment>, a: Assignment, j: nat)
    requires GroupsMatch(gp, p) && a.stockId !in StockOrder(p) && j < |gp|
    requires Members(p + [a], StockOrder(p)[j]) == Members(p, StockOrder(p)[j])
    ensures gp[j] == Group(StockOrder(p + [a])[j], Members(p + [a], StockOrder(p + [a])[j]))
  {
    StockOrderSnoc(p, a);
  }

  /** The group opened for a new stock type holds just the new assignment. */
  lemma OpenedGroup(gp: seq<Group>, p: seq<Assignment>, a: Assignment)
    requires GroupsMatch(gp, p) && a.stockId !in StockOrder(p)
    ensures |StockOrder(p + [a])| == |gp| + 1
    ensures Group(a.stockId, [a]) == Group(StockOrder(p + [a])[|gp|], Members(p + [a], StockOrder(p + [a])[|gp|]))
  {
    StockOrderSnoc(p, a);
    MembersOfAbsent(p, a.stockId);
    MembersSnoc(p, a, a.stockId);
  }

  lemma ExistingGroupMatch(gp: seq<Group>, p: seq<Assignment>, a: Assignment, k: nat)
    requires GroupsMatch(gp, p) && k < |gp| && StockOrder(p)[k] == a.stockId
    requires forall j :: 0 <= j < |StockOrder(p)| ==>
      Members(p + [a], StockOrder(p)[j]) == if StockOrder(p)[j] == a.stockId then Members(p, StockOrder(p)[j]) + [a] else Members(p, StockOrder(p)[j])
    ensures GroupsMatch(gp[k := gp[k].(members := gp[k].members + [a])], p + [a])
  {
    StockOrderSnoc(p, a);
    var o := StockOrder(p);
    var g := gp[k := gp[k].(members := gp[k].members + [a])];
    assert StockOrder(p + [a]) == o;
    forall j | 0 <= j < |g|
      ensures g[j] == Group(o[j], Members(p + [a], o[j]))
    {
      if j == k {
        assert g[k] == Group(o[k], Members(p, o[k]) + [a]);
      } else {
        assert o[j] != o[k];
        assert g[j] == gp[j];
      }
    }
  }

  /** The groups' stock types are distinct, so no stock type gets two layouts. */
  lemma GroupsDistinct(xs: seq<Assignment>)
    ensures var g := GroupByStock(xs);
            forall j, k :: 0 <= j < k < |g| ==> g[j].stockId != g[k].stockId
  {
    GroupByStockSpec(xs);
    var g := GroupByStock(xs);
    var o := StockOrder(xs);
    forall j, k | 0 <= j < k < |g|
      ensures g[j].stockId != g[k].stockId
    {
      assert g[j].stockId == o[j] && g[k].stockId == o[k];
    }
  }

  /** A group holds only assignments to its own stock type, and only assignments of the input. */
  lemma GroupsHomogeneous(xs: seq<Assignment>, k: nat)
    requires k < |GroupByStock(xs)|
    ensures var g := GroupByStock(xs)[k];
            && (forall m :: 0 <= m < |g.members| ==> g.members[m].stockId == g.stockId)
            && multiset(g.members) <= multiset(xs)
  {
    GroupByStockSpec(xs);
    var o := StockOrder(xs);
    assert GroupByStock(xs)[k] == Group(o[k], Members(xs, o[k]));
  }

  /** Each assignment appears in the group of its stock type. */
  lemma GroupsCover(xs: seq<Assignment>, i: nat) returns (k: nat)
    requires i < |xs|
    ensures var g := GroupByStock(xs);
            k < |g| && g[k].stockId == xs[i].stockId && xs[i] in g[k].members
  {
    GroupByStockSpec(xs);
    var g := GroupByStock(xs);
    var o := StockOrder(xs);
    k :| 0 <= k < |o| && o[k] == xs[i].stockId;
    assert g[k] == Group(o[k], Members(xs, o[k]));
  }
}
