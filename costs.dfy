/**
  The per-service costs of the billing report: filtering the Cost Explorer
  groups down to the services with a positive cost, the stable sort by cost
  in descending order, the split into the five most expensive services and
  the rest, and the sums over them.
 */
module Costs {
  import opened Wrappers

  /** How many services the report lists by name. */
  const TopCount := 5

  /** One entry of the report's service list: a service name and its cost. */
  datatype ServiceCost = ServiceCost(service: string, cost: real)

  /** One element of a Cost Explorer `Groups` list: its dimension `Keys` and
      its `BlendedCost` amount, `None` when that amount does not parse as a
      number. */
  datatype Group = Group(keys: seq<string>, amount: Option<real>)

  /** Why reading one group raises: `Keys` has no first element, or the amount
      is not a number. */
  datatype GroupFault = MissingServiceKey | AmountNotANumber

  // ---------------------------------------------------------------------
  // Filtering the groups

  predicate WellFormed(g: Group)
  {
    |g.keys| > 0 && g.amount.Some?
  }

  predicate AllWellFormed(groups: seq<Group>)
  {
    forall i :: 0 <= i < |groups| ==> WellFormed(groups[i])
  }

  /** The fault reading `g` raises first: the service key is read before the amount. */
  function FaultOf(g: Group): (f: Option<GroupFault>)
    ensures f.None? <==> WellFormed(g)
    ensures f == Some(MissingServiceKey) <==> |g.keys| == 0
  {
    if |g.keys| == 0 then Some(MissingServiceKey)
    else if g.amount.None? then Some(AmountNotANumber)
    else None
  }

  /** The entry a well-formed group would be recorded as. */
  function Entry(g: Group): ServiceCost
    requires WellFormed(g)
  {
    ServiceCost(g.keys[0], g.amount.value)
  }

  /** The services with a positive cost, in the order of the groups. */
  function Kept(groups: seq<Group>): (r: seq<ServiceCost>)
    requires AllWellFormed(groups)
    ensures |r| <= |groups|
    ensures forall k :: 0 <= k < |r| ==> r[k].cost > 0.0
    decreases |groups|
  {
    if groups == [] then []
    else
      var g := groups[|groups| - 1];
      Kept(groups[..|groups| - 1]) + (if g.amount.value > 0.0 then [Entry(g)] else [])
  }

  /** Filtering distributes over concatenation: kept entries stay in input order. */
  lemma {:induction false} KeptAppend(a: seq<Group>, b: seq<Group>)
    requires AllWellFormed(a) && AllWellFormed(b)
    ensures AllWellFormed(a + b)
    ensures Kept(a + b) == Kept(a) + Kept(b)
    decreases |b|
  {
    if b == [] {
      assert a + b == a;
    } else {
      var b' := b[..|b| - 1];
      assert (a + b)[..|a + b| - 1] == a + b';
      KeptAppend(a, b');
    }
  }

  /** An entry is kept exactly when some group with a positive cost records it. */
  lemma {:induction false} KeptMembers(groups: seq<Group>, x: ServiceCost)
    requires AllWellFormed(groups)
    ensures x in Kept(groups) <==>
      exists i :: 0 <= i < |groups| && groups[i].amount.value > 0.0 && x == Entry(groups[i])
    decreases |groups|
  {
    if groups != [] {
      var init := groups[..|groups| - 1];
      KeptMembers(init, x);
      if x in Kept(init) {
        var i :| 0 <= i < |init| && init[i].amount.value > 0.0 && x == Entry(init[i]);
        assert groups[i] == init[i];
      }
      if exists i :: 0 <= i < |groups| && groups[i].amount.value > 0.0 && x == Entry(groups[i]) {
        var i :| 0 <= i < |groups| && groups[i].amount.value > 0.0 && x == Entry(groups[i]);
        if i < |init| {
          assert init[i] == groups[i];
        }
      }
    }
  }

  /** The loop of the handler that builds the service list. It stops with
      the fault of the first group that cannot be read. */
  method ExtractServiceCosts(groups: seq<Group>) returns (r: Result<seq<ServiceCost>, GroupFault>)
    ensures r.Success? <==> AllWellFormed(groups)
    ensures r.Success? ==> r.value == Kept(groups)
    ensures r.Failure? ==>
      exists i :: 0 <= i < |groups| && AllWellFormed(groups[..i]) && FaultOf(groups[i]) == Some(r.error)
  {
    var costs: seq<ServiceCost> := [];
    for i := 0 to |groups|
      invariant AllWellFormed(groups[..i])
      invariant costs == Kept(groups[..i])
    {
      var group := groups[i];
      if |group.keys| == 0 {
        return Failure(MissingServiceKey);
      }
      var name := group.keys[0];
      if group.amount.None? {
        return Failure(AmountNotANumber);
      }
      var amount := group.amount.value;
      if amount > 0.0 {
        costs := costs + [ServiceCost(name, amount)];
      }
      assert groups[..i + 1][..i] == groups[..i];
    }
    assert groups[..|groups|] == groups;
    return Success(costs);
  }

  // ---------------------------------------------------------------------
  // Sorting by cost, descending and stable

  predicate SortedDesc(s: seq<ServiceCost>)
  {
    forall i, j :: 0 <= i < j < |s| ==> s[i].cost >= s[j].cost
  }

  /** The entries of `s` whose cost is `c`, in their order in `s`. */
  function WithCost(s: seq<ServiceCost>, c: real): (r: seq<ServiceCost>)
    ensures forall k :: 0 <= k < |r| ==> r[k].cost == c
    decreases |s|
  {
    if s == [] then []
    else WithCost(s[..|s| - 1], c) + (if s[|s| - 1].cost == c then [s[|s| - 1]] else [])
  }

  /** Inserts `x` after every entry that costs at least as much, so that it
      follows the earlier entries of equal cost. */
  function InsertDesc(r: seq<ServiceCost>, x: ServiceCost): (out: seq<ServiceCost>)
    ensures |out| == |r| + 1
    decreases |r|
  {
    if r == [] then [x]
    else if r[|r| - 1].cost < x.cost then InsertDesc(r[..|r| - 1], x) + [r[|r| - 1]]
    else r + [x]
  }

  /** Insertion adds exactly `x`. */
  lemma {:induction false} InsertDescPermutes(r: seq<ServiceCost>, x: ServiceCost)
    ensures multiset(InsertDesc(r, x)) == multiset(r) + multiset{x}
    decreases |r|
  {
    if r != [] && r[|r| - 1].cost < x.cost {
      InsertDescPermutes(r[..|r| - 1], x);
      assert r == r[..|r| - 1] + [r[|r| - 1]];
    }
  }

  /** `sort(key=cost, reverse=True)`: insertion of each entry in turn, which
      is stable. */
  function SortDesc(s: seq<ServiceCost>): (r: seq<ServiceCost>)
    ensures |r| == |s|
    decreases |s|
  {
    if s == [] then [] else InsertDesc(SortDesc(s[..|s| - 1]), s[|s| - 1])
  }

  /** The sorted list is a permutation of the input. */
  lemma {:induction false} SortDescPermutes(s: seq<ServiceCost>)
    ensures multiset(SortDesc(s)) == multiset(s)
    decreases |s|
  {
    if s != [] {
      var init, last := s[..|s| - 1], s[|s| - 1];
      SortDescPermutes(init);
      InsertDescPermutes(SortDesc(init), last);
      assert s == init + [last];
      assert multiset(s) == multiset(init) + multiset{last};
    }
  }

  /** The sorted list has non-increasing costs. */
  lemma {:induction false} SortDescSorted(s: seq<ServiceCost>)
    ensures SortedDesc(SortDesc(s))
    decreases |s|
  {
    if s != [] {
      SortDescSorted(s[..|s| - 1]);
      InsertDescSorted(SortDesc(s[..|s| - 1]), s[|s| - 1]);
    }
  }

  lemma SortDescPrefix(s: seq<ServiceCost>, i: int)
    requires 0 <= i < |s|
    ensures SortDesc(s[..i + 1]) == InsertDesc(SortDesc(s[..i]), s[i])
  {
    assert s[..i + 1][..i] == s[..i];
  }

  lemma {:induction false} InsertDescSorted(r: seq<ServiceCost>, x: ServiceCost)
    requires SortedDesc(r)
    ensures SortedDesc(InsertDesc(r, x))
    decreases |r|
  {
    if r != [] && r[|r| - 1].cost < x.cost {
      var init, last := r[..|r| - 1], r[|r| - 1];
      InsertDescSorted(init, x);
      var ins := InsertDesc(init, x);
      InsertDescPermutes(init, x);
      forall k | 0 <= k < |ins|
        ensures ins[k].cost >= last.cost
      {
        assert ins[k] in multiset(ins);
        if ins[k] != x {
          assert ins[k] in multiset(init);
          var m :| 0 <= m < |init| && init[m] == ins[k];
          assert r[m] == init[m];
        }
      }
    }
  }

  lemma WithCostSnoc(s: seq<ServiceCost>, y: ServiceCost, c: real)
    ensures WithCost(s + [y], c) == WithCost(s, c) + (if y.cost == c then [y] else [])
  {
    assert (s + [y])[..|s + [y]| - 1] == s;
  }

  lemma {:induction false} InsertDescWithCost(r: seq<ServiceCost>, x: ServiceCost, c: real)
    ensures WithCost(InsertDesc(r, x), c) == WithCost(r, c) + (if x.cost == c then [x] else [])
    decreases |r|
  {
    if r == [] {
      WithCostSnoc([], x, c);
      assert [x] == [] + [x];
    } else if r[|r| - 1].cost < x.cost {
      var init, last := r[..|r| - 1], r[|r| - 1];
      InsertDescWithCost(init, x, c);
      WithCostSnoc(InsertDesc(init, x), last, c);
    } else {
      WithCostSnoc(r, x, c);
    }
  }

  /** Stability: for every cost, the entries of that cost appear in the sorted
      list in the same order as in the input. */
  lemma {:induction false} SortDescStable(s: seq<ServiceCost>, c: real)
    ensures WithCost(SortDesc(s), c) == WithCost(s, c)
    decreases |s|
  {
    if s != [] {
      var init := s[..|s| - 1];
      SortDescStable(init, c);
      InsertDescWithCost(SortDesc(init), s[|s| - 1], c);
    }
  }

  /** Where `InsertDesc` puts `x`: before the trailing run of cheaper entries. */
  lemma {:induction false} InsertDescAt(r: seq<ServiceCost>, x: ServiceCost, j: int)
    requires 0 <= j <= |r|
    requires forall k :: j <= k < |r| ==> r[k].cost < x.cost
    requires j == 0 || r[j - 1].cost >= x.cost
    ensures InsertDesc(r, x) == r[..j] + [x] + r[j..]
    decreases |r|
  {
    if j == |r| {
      assert r[..j] == r && r[j..] == [];
    } else {
      var init, last := r[..|r| - 1], r[|r| - 1];
      assert last.cost < x.cost;
      forall k | j <= k < |init|
        ensures init[k].cost < x.cost
      {
        assert init[k] == r[k];
      }
      assert j == 0 || init[j - 1] == r[j - 1];
      InsertDescAt(init, x, j);
      calc {
        InsertDesc(r, x);
        InsertDesc(init, x) + [last];
        init[..j] + [x] + init[j..] + [last];
        { assert init[..j] == r[..j]; assert init[j..] + [last] == r[j..]; }
        r[..j] + [x] + r[j..];
      }
    }
  }

  /** The in-place sort of the handler, as an insertion sort: each entry is
      placed after all entries that cost at least as much. */
  method SortByCost(costs: seq<ServiceCost>) returns (sorted: seq<ServiceCost>)
    ensures sorted == SortDesc(costs)
    ensures SortedDesc(sorted) && multiset(sorted) == multiset(costs)
  {
    sorted := [];
    for i := 0 to |costs|
      invariant sorted == SortDesc(costs[..i])
    {
      var x := costs[i];
      var j := |sorted|;
      while j > 0 && sorted[j - 1].cost < x.cost
        invariant 0 <= j <= |sorted|
        invariant forall k :: j <= k < |sorted| ==> sorted[k].cost < x.cost
      {
        j := j - 1;
      }
      InsertDescAt(sorted, x, j);
      SortDescPrefix(costs, i);
      sorted := sorted[..j] + [x] + sorted[j..];
    }
    assert costs[..|costs|] == costs;
    SortDescSorted(costs);
    SortDescPermutes(costs);
  }

  // ---------------------------------------------------------------------
  // The top five, the rest, and their sums

  /** `service_costs[:5]`. */
  function TopFive(s: seq<ServiceCost>): (top: seq<ServiceCost>)
    ensures |top| == if |s| < TopCount then |s| else TopCount
    ensures forall i :: 0 <= i < |top| ==> top[i] == s[i]
  {
    s[..if |s| < TopCount then |s| else TopCount]
  }

  /** `service_costs[5:]`, empty when there are at most five services. */
  function Rest(s: seq<ServiceCost>): (rest: seq<ServiceCost>)
    ensures |rest| == if |s| <= TopCount then 0 else |s| - TopCount
    ensures forall i :: 0 <= i < |rest| ==> rest[i] == s[TopCount + i]
  {
    if |s| <= TopCount then [] else s[TopCount..]
  }

  /** The top five followed by the rest is the whole list. */
  lemma TopFiveThenRest(s: seq<ServiceCost>)
    ensures TopFive(s) + Rest(s) == s
  {
  }

  /** In a sorted list no listed service is cheaper than an unlisted one. */
  lemma TopFiveDominates(s: seq<ServiceCost>, i: int, j: int)
    requires SortedDesc(s)
    requires 0 <= i < |TopFive(s)| && 0 <= j < |Rest(s)|
    ensures TopFive(s)[i].cost >= Rest(s)[j].cost
  {
  }

  /** Python's `sum` over the costs, left to right. */
  function Sum(s: seq<ServiceCost>): (r: real)
    ensures (forall k :: 0 <= k < |s| ==> s[k].cost >= 0.0) ==> r >= 0.0
    decreases |s|
  {
    if s == [] then 0.0 else Sum(s[..|s| - 1]) + s[|s| - 1].cost
  }

  lemma {:induction false} SumConcat(a: seq<ServiceCost>, b: seq<ServiceCost>)
    ensures Sum(a + b) == Sum(a) + Sum(b)
    decreases |b|
  {
    if b == [] {
      assert a + b == a;
    } else {
      assert (a + b)[..|a + b| - 1] == a + b[..|b| - 1];
      SumConcat(a, b[..|b| - 1]);
    }
  }

  /** The top five plus the other services add up to the total. */
  lemma SplitSum(s: seq<ServiceCost>)
    ensures Sum(TopFive(s)) + Sum(Rest(s)) == Sum(s)
  {
    TopFiveThenRest(s);
    SumConcat(TopFive(s), Rest(s));
  }

  lemma {:induction false} InsertDescSum(r: seq<ServiceCost>, x: ServiceCost)
    ensures Sum(InsertDesc(r, x)) == Sum(r) + x.cost
    decreases |r|
  {
    if r != [] && r[|r| - 1].cost < x.cost {
      InsertDescSum(r[..|r| - 1], x);
    }
  }

  /** Sorting does not change the total. */
  lemma {:induction false} SortDescSum(s: seq<ServiceCost>)
    ensures Sum(SortDesc(s)) == Sum(s)
    decreases |s|
  {
    if s != [] {
      SortDescSum(s[..|s| - 1]);
      InsertDescSum(SortDesc(s[..|s| - 1]), s[|s| - 1]);
    }
  }

  predicate AllPositive(s: seq<ServiceCost>)
  {
    forall k :: 0 <= k < |s| ==> s[k].cost > 0.0
  }

  /** With positive costs, every cost is at most the total, and a non-empty
      list has a positive total. */
  lemma {:induction false} SumBounds(s: seq<ServiceCost>)
    requires AllPositive(s)
    ensures s != [] ==> Sum(s) > 0.0
    ensures forall k :: 0 <= k < |s| ==> s[k].cost <= Sum(s)
    decreases |s|
  {
    if s != [] {
      var init := s[..|s| - 1];
      SumBounds(init);
      assert init == [] ==> Sum(init) == 0.0;
      forall k | 0 <= k < |s|
        ensures s[k].cost <= Sum(s)
      {
        if k < |init| {
          assert s[k] == init[k];
        }
      }
    }
  }

  lemma AllPositiveSorted(s: seq<ServiceCost>)
    requires AllPositive(s)
    ensures AllPositive(SortDesc(s))
  {
    var r := SortDesc(s);
    SortDescPermutes(s);
    forall k | 0 <= k < |r|
      ensures r[k].cost > 0.0
    {
      assert r[k] in multiset(s);
    }
  }
}
