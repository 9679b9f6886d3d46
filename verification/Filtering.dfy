/** Filtering the upstreams of each priority, then routing over what is left. */
module Filtering {
  import opened Wrappers
  import opened Topology
  import opened NodeFilters
  import opened RoundRobin

  /** The upstreams of a list that pass every filter, in order. */
  function Kept(list: seq<UpstreamConfig>, filters: seq<Filter>, snap: Snapshot, n: nat): (kept: seq<UpstreamConfig>)
    ensures forall u :: u in kept <==> u in list && PassesAll(filters, snap, u, n)
  {
    if list == [] then []
    else
      var u := list[|list| - 1];
      var rest := Kept(list[..|list| - 1], filters, snap, n);
      assert forall w :: w in list <==> w in list[..|list| - 1] || w == u;
      if PassesAll(filters, snap, u, n) then rest + [u] else rest
  }

  lemma {:induction false} KeptDistinct(list: seq<UpstreamConfig>, filters: seq<Filter>, snap: Snapshot, n: nat)
    requires DistinctUpstreams(list)
    ensures DistinctUpstreams(Kept(list, filters, snap, n))
  {
    if list != [] {
      var u, before := list[|list| - 1], list[..|list| - 1];
      KeptDistinct(before, filters, snap, n);
      var rest := Kept(before, filters, snap, n);
      forall i | 0 <= i < |rest| ensures rest[i].id != u.id {
        assert rest[i] in before;
      }
    }
  }

  /** Each filter is told how many upstreams share the priority before any filtering. */
  function KeptAt(m: PriorityMap, p: int, filters: seq<Filter>, snap: Snapshot): seq<UpstreamConfig>
    requires p in m
  {
    Kept(m[p], filters, snap, |m[p]|)
  }

  function Survivors(m: PriorityMap, filters: seq<Filter>, snap: Snapshot): PriorityMap {
    map p | p in m && KeptAt(m, p, filters, snap) != [] :: KeptAt(m, p, filters, snap)
  }

  method FilterUpstreams(m: PriorityMap, snap: Snapshot, filters: seq<Filter>) returns (healthy: PriorityMap)
    ensures healthy == Survivors(m, filters, snap)
  {
    healthy := map[];
    var nodeFilter := AndFilter(filters);
    var keys := SortedKeys(m);
    for i := 0 to |keys|
      invariant forall p :: p in healthy <==> p in keys[..i] && p in m && KeptAt(m, p, filters, snap) != []
      invariant forall p | p in healthy :: p in m && healthy[p] == KeptAt(m, p, filters, snap)
      invariant forall k | 0 <= k < i :: keys[k] in m
    {
      var p := keys[i];
      assert p in keys;
      var upstreams := m[p];
      var filtered := [];
      for k := 0 to |upstreams|
        invariant filtered == Kept(upstreams[..k], filters, snap, |upstreams|)
      {
        assert upstreams[..k + 1][..k] == upstreams[..k];
        var ok := Apply(nodeFilter, snap, upstreams[k], |upstreams|);
        assert ok <==> PassesAll(filters, snap, upstreams[k], |upstreams|);
        if ok {
          filtered := filtered + [upstreams[k]];
        }
      }
      assert upstreams[..|upstreams|] == upstreams;
      if |filtered| > 0 {
        healthy := healthy[p := filtered];
      }
      assert keys[..i + 1] == keys[..i] + [p];
    }
    assert keys[..|keys|] == keys;
    assert forall p :: p in healthy <==> p in Survivors(m, filters, snap);
  }

  /** Survivors are read off the filters' verdicts alone. */
  lemma SurvivorsMeaning(m: PriorityMap, filters: seq<Filter>, snap: Snapshot, p: int, u: UpstreamConfig)
    ensures (p in Survivors(m, filters, snap) && u in Survivors(m, filters, snap)[p])
      <==> p in m && u in m[p] && PassesAll(filters, snap, u, |m[p]|)
  {
  }

  /** a is b with some elements left out. */
  ghost predicate IsSubsequence(a: seq<UpstreamConfig>, b: seq<UpstreamConfig>) {
    if a == [] then true
    else if b == [] then false
    else
      || (a[|a| - 1] == b[|b| - 1] && IsSubsequence(a[..|a| - 1], b[..|b| - 1]))
      || IsSubsequence(a, b[..|b| - 1])
  }

  ghost predicate Weaker(fewer: seq<Filter>, filters: seq<Filter>) {
    forall f :: f in fewer ==> f in filters
  }

  /** Dropping filters only grows a list, and keeps the order of what was there. */
  lemma {:induction false} DroppingFiltersGrows(
      list: seq<UpstreamConfig>, fewer: seq<Filter>, filters: seq<Filter>, snap: Snapshot, n: nat)
    requires Weaker(fewer, filters)
    ensures IsSubsequence(Kept(list, filters, snap, n), Kept(list, fewer, snap, n))
  {
    if list != [] {
      var u, before := list[|list| - 1], list[..|list| - 1];
      DroppingFiltersGrows(before, fewer, filters, snap, n);
      if PassesAll(filters, snap, u, n) {
        forall i | 0 <= i < |fewer| ensures Passes(fewer[i], snap, u, n) {
          assert fewer[i] in filters;
        }
      }
      var a, b := Kept(before, filters, snap, n), Kept(before, fewer, snap, n);
      assert (a + [u])[..|a|] == a && (b + [u])[..|b|] == b;
    }
  }

  /** Wrapping a filter list in one AndFilter changes nothing. */
  lemma {:induction false} KeptByAnd(list: seq<UpstreamConfig>, filters: seq<Filter>, snap: Snapshot, n: nat)
    ensures Kept(list, [AndFilter(filters)], snap, n) == Kept(list, filters, snap, n)
  {
    if list != [] {
      KeptByAnd(list[..|list| - 1], filters, snap, n);
      var u := list[|list| - 1];
      assert [AndFilter(filters)][0] == AndFilter(filters);
      assert PassesAll([AndFilter(filters)], snap, u, n) <==> Passes(AndFilter(filters), snap, u, n);
    }
  }

  lemma SurvivorsByAnd(m: PriorityMap, filters: seq<Filter>, snap: Snapshot)
    ensures Survivors(m, [AndFilter(filters)], snap) == Survivors(m, filters, snap)
  {
    forall p | p in m ensures KeptAt(m, p, [AndFilter(filters)], snap) == KeptAt(m, p, filters, snap) {
      KeptByAnd(m[p], filters, snap, |m[p]|);
    }
    assert Survivors(m, [AndFilter(filters)], snap).Keys == Survivors(m, filters, snap).Keys;
  }

  lemma {:induction false} KeptByNothing(list: seq<UpstreamConfig>, snap: Snapshot, n: nat)
    ensures Kept(list, [], snap, n) == list
  {
    if list != [] {
      KeptByNothing(list[..|list| - 1], snap, n);
      assert list == list[..|list| - 1] + [list[|list| - 1]];
    }
  }

  /** With no filters at all, routing cannot tell the survivors from the original map. */
  lemma NoFiltersRouteAlike(m: PriorityMap, snap: Snapshot, counter: UInt64)
    ensures Route(Survivors(m, [], snap), counter) == Route(m, counter)
    ensures Survivors(m, [], snap) != map[] <==> HasUpstream(m)
  {
    var s := Survivors(m, [], snap);
    forall p | p in m ensures KeptAt(m, p, [], snap) == m[p] {
      KeptByNothing(m[p], snap, |m[p]|);
    }
    assert forall p :: p in s <==> p in m && m[p] != [];
    if HasUpstream(m) {
      BestPriorityExists(m);
      var p :| IsBestPriority(m, p);
      assert p in s;
      assert IsBestPriority(s, p);
    } else {
      assert s == map[];
    }
  }

  lemma SurvivorsNonEmpty(m: PriorityMap, filters: seq<Filter>, snap: Snapshot)
    ensures HasUpstream(Survivors(m, filters, snap)) <==> Survivors(m, filters, snap) != map[]
    ensures HasUpstream(Survivors(m, filters, snap)) <==>
      exists p, u :: p in m && u in m[p] && PassesAll(filters, snap, u, |m[p]|)
  {
    var s := Survivors(m, filters, snap);
    if s != map[] {
      EmptyOrMember(s.Keys);
      assert s.Keys != {};
      var p :| p in s;
      assert s[p] != [] && s[p][0] in s[p];
    }
    if p, u :| p in m && u in m[p] && PassesAll(filters, snap, u, |m[p]|) {
      assert u in KeptAt(m, p, filters, snap);
      assert p in s;
    }
  }

  class FilteringRoutingStrategy {
    const nodeFilter: Filter
    const backingStrategy: PriorityRoundRobinStrategy

    constructor (nodeFilter: Filter, backingStrategy: PriorityRoundRobinStrategy)
      ensures this.nodeFilter == nodeFilter && this.backingStrategy == backingStrategy
    {
      this.nodeFilter := nodeFilter;
      this.backingStrategy := backingStrategy;
    }

    method RouteNextRequest(m: PriorityMap, snap: Snapshot) returns (outcome: Outcome)
      modifies backingStrategy
      ensures Decision(outcome, backingStrategy.counter) ==
        Route(Survivors(m, [nodeFilter], snap), old(backingStrategy.counter))
    {
      var filtered := FilterUpstreams(m, snap, [nodeFilter]);
      outcome := backingStrategy.RouteNextRequest(filtered);
    }
  }
}
