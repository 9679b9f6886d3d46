/** The always-route strategy: give up removable filters one at a time until some upstream is left. */
module AlwaysRoute {
  import opened Wrappers
  import opened Topology
  import opened NodeFilters
  import opened RoundRobin
  import opened Filtering

  function Without(filters: seq<Filter>, dropped: FilterType): seq<Filter> {
    if filters == [] then []
    else
      var f := filters[|filters| - 1];
      var rest := Without(filters[..|filters| - 1], dropped);
      if TypeOf(f) != dropped then rest + [f] else rest
  }

  method RemoveFilters(filters: seq<Filter>, filterToRemove: FilterType) returns (kept: seq<Filter>)
    ensures kept == Without(filters, filterToRemove)
  {
    kept := [];
    for i := 0 to |filters|
      invariant kept == Without(filters[..i], filterToRemove)
    {
      assert filters[..i + 1][..i] == filters[..i];
      if TypeOf(filters[i]) != filterToRemove {
        kept := kept + [filters[i]];
      }
    }
    assert filters[..|filters|] == filters;
  }

  /** The filters left after dropping the last k removable types, last listed first. */
  function AfterDrops(filters: seq<Filter>, removable: seq<FilterType>, k: nat): seq<Filter>
    requires k <= |removable|
  {
    if k == 0 then filters
    else Without(AfterDrops(filters, removable, k - 1), removable[|removable| - k])
  }

  lemma {:induction false} WithoutMeaning(filters: seq<Filter>, dropped: FilterType)
    ensures forall f :: f in Without(filters, dropped) <==> f in filters && TypeOf(f) != dropped
  {
    if filters != [] {
      var f, rest := filters[|filters| - 1], filters[..|filters| - 1];
      WithoutMeaning(rest, dropped);
      assert filters == rest + [f];
    }
  }

  /** One of the last k removable types. */
  predicate IsDropped(removable: seq<FilterType>, k: nat, dropped: FilterType)
    requires k <= |removable|
  {
    exists i :: |removable| - k <= i < |removable| && removable[i] == dropped
  }

  /** A filter survives k drops exactly when it is not of one of the last k removable types. */
  lemma {:induction false} AfterDropsMeaning(filters: seq<Filter>, removable: seq<FilterType>, k: nat, f: Filter)
    requires k <= |removable|
    ensures f in AfterDrops(filters, removable, k) <==> f in filters && !IsDropped(removable, k, TypeOf(f))
  {
    if k > 0 {
      AfterDropsMeaning(filters, removable, k - 1, f);
      WithoutMeaning(AfterDrops(filters, removable, k - 1), removable[|removable| - k]);
    }
  }

  /** Each drop can only grow every priority's list, in the same order. */
  lemma DropsGrow(
      m: PriorityMap, filters: seq<Filter>, removable: seq<FilterType>, snap: Snapshot, j: nat, k: nat, p: int)
    requires j <= k <= |removable| && p in m
    ensures IsSubsequence(KeptAt(m, p, AfterDrops(filters, removable, j), snap),
                          KeptAt(m, p, AfterDrops(filters, removable, k), snap))
  {
    var more, fewer := AfterDrops(filters, removable, j), AfterDrops(filters, removable, k);
    forall f | f in fewer ensures f in more {
      AfterDropsMeaning(filters, removable, j, f);
      AfterDropsMeaning(filters, removable, k, f);
    }
    DroppingFiltersGrows(m[p], fewer, more, snap, |m[p]|);
  }

  ghost function Left(
      m: PriorityMap, filters: seq<Filter>, removable: seq<FilterType>, snap: Snapshot, k: nat): PriorityMap
    requires k <= |removable|
  {
    Survivors(m, AfterDrops(filters, removable, k), snap)
  }

  /** Fewer than k drops leave no upstream. */
  ghost predicate NoneBefore(m: PriorityMap, filters: seq<Filter>, removable: seq<FilterType>, snap: Snapshot, k: nat)
    requires k <= |removable| + 1
  {
    forall j: nat | j < k :: Left(m, filters, removable, snap, j) == map[]
  }

  /** k is the fewest drops that leave some upstream. */
  ghost predicate IsLeast(m: PriorityMap, filters: seq<Filter>, removable: seq<FilterType>, snap: Snapshot, k: nat) {
    && k <= |removable|
    && Left(m, filters, removable, snap, k) != map[]
    && NoneBefore(m, filters, removable, snap, k)
  }

  /** The map the backing strategy must be given: the least degradation, or no filtering at all. */
  ghost function Target(m: PriorityMap, filters: seq<Filter>, removable: seq<FilterType>, snap: Snapshot): PriorityMap {
    if k: nat :| IsLeast(m, filters, removable, snap, k) then Left(m, filters, removable, snap, k) else m
  }

  lemma LeastIsUnique(m: PriorityMap, filters: seq<Filter>, removable: seq<FilterType>, snap: Snapshot, j: nat, k: nat)
    requires IsLeast(m, filters, removable, snap, j) && IsLeast(m, filters, removable, snap, k)
    ensures j == k
  {
  }

  /** The decision is the backing strategy's over the least degradation; it is an error only if
      there is no upstream at all; and it took no more filtering than needed. */
  ghost predicate RoutesLeast(
      m: PriorityMap, filters: seq<Filter>, removable: seq<FilterType>, snap: Snapshot, before: UInt64,
      decision: Decision, passes: nat)
  {
    && decision == Route(Target(m, filters, removable, snap), before)
    && (decision.outcome == NoHealthyUpstreams <==> !HasUpstream(m))
    && passes <= |removable| + 1
    && forall k: nat | IsLeast(m, filters, removable, snap, k) :: passes <= k + 1
  }

  class AlwaysRouteFilteringStrategy {
    const nodeFilters: seq<Filter>
    const removableFilters: seq<FilterType>
    const backingStrategy: PriorityRoundRobinStrategy

    constructor (
        nodeFilters: seq<Filter>, removableFilters: seq<FilterType>, backingStrategy: PriorityRoundRobinStrategy)
      ensures this.nodeFilters == nodeFilters && this.removableFilters == removableFilters
      ensures this.backingStrategy == backingStrategy
    {
      this.nodeFilters := nodeFilters;
      this.removableFilters := removableFilters;
      this.backingStrategy := backingStrategy;
    }

    /** Routes over the least degradation; `passes` counts the times the upstreams are filtered. */
    method RouteNextRequest(m: PriorityMap, snap: Snapshot) returns (outcome: Outcome, ghost passes: nat)
      modifies backingStrategy
      ensures RoutesLeast(m, nodeFilters, removableFilters, snap, old(backingStrategy.counter),
                          Decision(outcome, backingStrategy.counter), passes)
    {
      var removable := removableFilters;
      var filters := nodeFilters;
      passes := 0;
      ghost var k: nat := 0;
      while |filters| > 0
        invariant k <= |removableFilters| && |removable| == |removableFilters| - k && removable <= removableFilters
        invariant filters == AfterDrops(nodeFilters, removableFilters, k)
        invariant NoneBefore(m, nodeFilters, removableFilters, snap, k)
        invariant passes == k
        invariant backingStrategy.counter == old(backingStrategy.counter)
        decreases |removable|
      {
        var upstreams := FilterUpstreams(m, snap, filters);
        passes := passes + 1;
        if |upstreams| > 0 {
          LeftRoutesLeast(m, nodeFilters, removableFilters, snap, k, backingStrategy.counter);
          outcome := backingStrategy.RouteNextRequest(upstreams);
          return;
        }
        NoneBeforeOneMore(m, nodeFilters, removableFilters, snap, k);
        if |removable| == 0 {
          break;
        }
        var idx := |removable| - 1;
        var next := removable[idx];
        removable := removable[..idx];
        filters := RemoveFilters(filters, next);
        k := k + 1;
      }
      AllRoutesLeast(m, nodeFilters, removableFilters, snap, k, backingStrategy.counter, passes);
      outcome := backingStrategy.RouteNextRequest(m);
    }
  }

  lemma TargetAtLeast(
      m: PriorityMap, filters: seq<Filter>, removable: seq<FilterType>, snap: Snapshot, k: nat, counter: UInt64)
    requires k <= |removable| && NoneBefore(m, filters, removable, snap, k)
    requires Left(m, filters, removable, snap, k) != map[]
    ensures IsLeast(m, filters, removable, snap, k)
    ensures Target(m, filters, removable, snap) == Left(m, filters, removable, snap, k)
    ensures forall j: nat | IsLeast(m, filters, removable, snap, j) :: j == k
    ensures HasUpstream(m) && Route(Target(m, filters, removable, snap), counter).outcome != NoHealthyUpstreams
  {
    assert IsLeast(m, filters, removable, snap, k);
    forall j: nat | IsLeast(m, filters, removable, snap, j) ensures j == k {
      LeastIsUnique(m, filters, removable, snap, j, k);
    }
    SurvivorsNonEmpty(m, AfterDrops(filters, removable, k), snap);
    var p, u :| p in m && u in m[p] && PassesAll(AfterDrops(filters, removable, k), snap, u, |m[p]|);
    assert m[p] != [];
  }

  lemma TargetWithoutLeast(
      m: PriorityMap, filters: seq<Filter>, removable: seq<FilterType>, snap: Snapshot, counter: UInt64)
    requires NoneBefore(m, filters, removable, snap, |removable| + 1)
    ensures Target(m, filters, removable, snap) == m
    ensures forall j: nat :: !IsLeast(m, filters, removable, snap, j)
    ensures Route(m, counter).outcome == NoHealthyUpstreams <==> !HasUpstream(m)
  {
  }

  /** Whatever the filters say, something is offered if there is anything. */
  lemma TargetHasUpstreamIff(m: PriorityMap, filters: seq<Filter>, removable: seq<FilterType>, snap: Snapshot)
    ensures HasUpstream(Target(m, filters, removable, snap)) <==> HasUpstream(m)
  {
    if k: nat :| IsLeast(m, filters, removable, snap, k) {
      TargetAtLeast(m, filters, removable, snap, k, 0);
      SurvivorsNonEmpty(m, AfterDrops(filters, removable, k), snap);
    }
  }

  /** When every filter has been dropped the code stops filtering; that is the last degradation. */
  lemma NothingLeftToDrop(
      m: PriorityMap, filters: seq<Filter>, removable: seq<FilterType>, snap: Snapshot, k: nat, counter: UInt64)
    requires k <= |removable| && AfterDrops(filters, removable, k) == []
    requires NoneBefore(m, filters, removable, snap, k)
    ensures Route(Target(m, filters, removable, snap), counter) == Route(m, counter)
    ensures forall j: nat | IsLeast(m, filters, removable, snap, j) :: k <= j
    ensures Route(m, counter).outcome == NoHealthyUpstreams <==> !HasUpstream(m)
  {
    NoFiltersRouteAlike(m, snap, counter);
    if HasUpstream(m) {
      TargetAtLeast(m, filters, removable, snap, k, counter);
    } else if j: nat :| IsLeast(m, filters, removable, snap, j) {
      TargetAtLeast(m, filters, removable, snap, j, counter);
    }
  }

  lemma NoneBeforeOneMore(
      m: PriorityMap, filters: seq<Filter>, removable: seq<FilterType>, snap: Snapshot, k: nat)
    requires k <= |removable| && NoneBefore(m, filters, removable, snap, k)
    requires Left(m, filters, removable, snap, k) == map[]
    ensures NoneBefore(m, filters, removable, snap, k + 1)
  {
  }

  lemma LeftRoutesLeast(
      m: PriorityMap, filters: seq<Filter>, removable: seq<FilterType>, snap: Snapshot, k: nat, counter: UInt64)
    requires k <= |removable| && NoneBefore(m, filters, removable, snap, k)
    requires Left(m, filters, removable, snap, k) != map[]
    ensures RoutesLeast(m, filters, removable, snap, counter,
                        Route(Left(m, filters, removable, snap, k), counter), k + 1)
  {
    TargetAtLeast(m, filters, removable, snap, k, counter);
  }

  /** The two ways out of the loop: no filter is left, or nothing removable is. */
  lemma AllRoutesLeast(
      m: PriorityMap, filters: seq<Filter>, removable: seq<FilterType>, snap: Snapshot, k: nat, counter: UInt64,
      passes: nat)
    requires k <= |removable|
    requires (passes == k && AfterDrops(filters, removable, k) == [] && NoneBefore(m, filters, removable, snap, k))
      || (passes == k + 1 && k == |removable| && NoneBefore(m, filters, removable, snap, k + 1))
    ensures RoutesLeast(m, filters, removable, snap, counter, Route(m, counter), passes)
  {
    if passes == k {
      NothingLeftToDrop(m, filters, removable, snap, k, counter);
    } else {
      TargetWithoutLeast(m, filters, removable, snap, counter);
    }
  }

  /** Least degradation, in terms of verdicts alone: if k drops leave an upstream and fewer leave
      none, exactly the upstreams that pass the filters left after k drops are offered. */
  lemma LeastDegradation(
      m: PriorityMap, filters: seq<Filter>, removable: seq<FilterType>, snap: Snapshot, k: nat, p: int,
      u: UpstreamConfig)
    requires k <= |removable|
    requires exists q, w :: q in m && w in m[q] && PassesAll(AfterDrops(filters, removable, k), snap, w, |m[q]|)
    requires forall j: nat, q, w | j < k && q in m && w in m[q] ::
      !PassesAll(AfterDrops(filters, removable, j), snap, w, |m[q]|)
    ensures var t := Target(m, filters, removable, snap);
      (p in t && u in t[p])
      <==> p in m && u in m[p] && PassesAll(AfterDrops(filters, removable, k), snap, u, |m[p]|)
  {
    SurvivorsNonEmpty(m, AfterDrops(filters, removable, k), snap);
    forall j: nat | j < k ensures Left(m, filters, removable, snap, j) == map[] {
      SurvivorsNonEmpty(m, AfterDrops(filters, removable, j), snap);
    }
    TargetAtLeast(m, filters, removable, snap, k, 0);
    SurvivorsMeaning(m, AfterDrops(filters, removable, k), snap, p, u);
  }

  /** Always-route refines plain filtering: whenever filtering by all the filters finds an
      upstream, both strategies make the same choice and leave the same counter. */
  lemma RefinesFiltering(
      m: PriorityMap, filters: seq<Filter>, removable: seq<FilterType>, snap: Snapshot, counter: UInt64)
    requires Route(Survivors(m, [AndFilter(filters)], snap), counter).outcome != NoHealthyUpstreams
    ensures Route(Target(m, filters, removable, snap), counter)
      == Route(Survivors(m, [AndFilter(filters)], snap), counter)
  {
    SurvivorsByAnd(m, filters, snap);
    SurvivorsNonEmpty(m, filters, snap);
    TargetAtLeast(m, filters, removable, snap, 0, counter);
  }

  /** The two strategies side by side, as a chain would be wired with one or the other. */
  method RouteBothWays(
      m: PriorityMap, snap: Snapshot, plain: FilteringRoutingStrategy, always: AlwaysRouteFilteringStrategy)
    returns (plainly: Outcome, regardless: Outcome)
    requires plain.backingStrategy != always.backingStrategy
    requires plain.backingStrategy.counter == always.backingStrategy.counter
    requires plain.nodeFilter == AndFilter(always.nodeFilters)
    modifies plain.backingStrategy, always.backingStrategy
    ensures plainly != NoHealthyUpstreams ==>
      regardless == plainly && always.backingStrategy.counter == plain.backingStrategy.counter
    ensures regardless == NoHealthyUpstreams ==> plainly == NoHealthyUpstreams && !HasUpstream(m)
  {
    ghost var counter := plain.backingStrategy.counter;
    plainly := plain.RouteNextRequest(m, snap);
    ghost var passes;
    regardless, passes := always.RouteNextRequest(m, snap);
    if plainly != NoHealthyUpstreams {
      RefinesFiltering(m, always.nodeFilters, always.removableFilters, snap, counter);
    }
  }

  const REMOVABLE: seq<FilterType> := [IsErrorRateAcceptableType, IsLatencyAcceptableType]

  /** How a chain is wired: latency is given up first, then the error rate, the rest never. */
  lemma WiredDegradation(chainFilter: Filter)
    requires chainFilter.AndFilter?
    ensures var filters := [chainFilter, IsErrorRateAcceptable, IsLatencyAcceptable];
      && AfterDrops(filters, REMOVABLE, 1) == [chainFilter, IsErrorRateAcceptable]
      && AfterDrops(filters, REMOVABLE, 2) == [chainFilter]
  {
    var filters := [chainFilter, IsErrorRateAcceptable, IsLatencyAcceptable];
    assert filters[..2] == [chainFilter, IsErrorRateAcceptable];
    assert [chainFilter, IsErrorRateAcceptable][..1] == [chainFilter] && [chainFilter][..0] == [];
    assert Without([chainFilter], REMOVABLE[0]) == [chainFilter] == Without([chainFilter], REMOVABLE[1]);
    assert Without([chainFilter, IsErrorRateAcceptable], REMOVABLE[1]) == [chainFilter, IsErrorRateAcceptable];
    assert AfterDrops(filters, REMOVABLE, 1) == Without(filters, REMOVABLE[1]);
  }
}
