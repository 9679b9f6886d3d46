/** From a chain's upstreams to the one configuration a request is sent to. */
module Router {
  import opened Wrappers
  import opened ChainStore
  import opened HeightFilters
  import StoreProtocol
  import ConfigSpec
  import opened Topology
  import opened NodeFilters
  import opened RoundRobin
  import opened Filtering
  import opened AlwaysRoute

  /** The priority of the first group with this ID, 0 when there is none. */
  function PriorityOf(groupID: string, groups: seq<GroupConfig>): int {
    if groups == [] then 0
    else if groups[0].id == groupID then groups[0].priority
    else PriorityOf(groupID, groups[1..])
  }

  /** The upstreams of one priority, in the order they are configured. */
  function AtPriority(upstreams: seq<UpstreamConfig>, groups: seq<GroupConfig>, p: int): seq<UpstreamConfig> {
    if upstreams == [] then []
    else
      var u := upstreams[|upstreams| - 1];
      var rest := AtPriority(upstreams[..|upstreams| - 1], groups, p);
      if PriorityOf(u.groupID, groups) == p then rest + [u] else rest
  }

  function Grouped(upstreams: seq<UpstreamConfig>, groups: seq<GroupConfig>): PriorityMap {
    map p | p in (set u | u in upstreams :: PriorityOf(u.groupID, groups)) :: AtPriority(upstreams, groups, p)
  }

  lemma GroupOneMore(before: seq<UpstreamConfig>, u: UpstreamConfig, groups: seq<GroupConfig>)
    ensures var m, p := Grouped(before, groups), PriorityOf(u.groupID, groups);
      Grouped(before + [u], groups) == m[p := Lookup(m, p, []) + [u]]
  {
    assert (before + [u])[..|before|] == before;
    var m, m' := Grouped(before, groups), Grouped(before + [u], groups);
    var p := PriorityOf(u.groupID, groups);
    forall q ensures q in m' <==> q in m || q == p {
      assert u in before + [u];
      assert forall w :: w in before + [u] <==> w in before || w == u;
    }
    if p !in m {
      NobodyAt(before, groups, p);
    }
  }

  lemma {:induction false} NobodyAt(upstreams: seq<UpstreamConfig>, groups: seq<GroupConfig>, p: int)
    requires forall u | u in upstreams :: PriorityOf(u.groupID, groups) != p
    ensures AtPriority(upstreams, groups, p) == []
  {
    if upstreams != [] {
      assert upstreams[|upstreams| - 1] in upstreams;
      NobodyAt(upstreams[..|upstreams| - 1], groups, p);
    }
  }

  method GroupUpstreamsByPriority(upstreams: seq<UpstreamConfig>, groups: seq<GroupConfig>)
    returns (priorityMap: PriorityMap)
    ensures priorityMap == Grouped(upstreams, groups)
  {
    priorityMap := map[];
    for n := 0 to |upstreams|
      invariant priorityMap == Grouped(upstreams[..n], groups)
    {
      var u := upstreams[n];
      var groupPriority := 0;
      var k := 0;
      while k < |groups|
        invariant 0 <= k <= |groups| && groupPriority == 0
        invariant PriorityOf(u.groupID, groups) == PriorityOf(u.groupID, groups[k..])
      {
        if groups[k].id == u.groupID {
          groupPriority := groups[k].priority;
          break;
        }
        k := k + 1;
      }
      GroupOneMore(upstreams[..n], u, groups);
      assert upstreams[..n + 1] == upstreams[..n] + [u];
      priorityMap := priorityMap[groupPriority := Lookup(priorityMap, groupPriority, []) + [u]];
    }
    assert upstreams[..|upstreams|] == upstreams;
  }

  lemma {:induction false} AsOftenAsConfigured(
      upstreams: seq<UpstreamConfig>, groups: seq<GroupConfig>, p: int, u: UpstreamConfig)
    ensures multiset(AtPriority(upstreams, groups, p))[u]
      == if PriorityOf(u.groupID, groups) == p then multiset(upstreams)[u] else 0
  {
    if upstreams != [] {
      var before, last := upstreams[..|upstreams| - 1], upstreams[|upstreams| - 1];
      assert upstreams == before + [last];
      AsOftenAsConfigured(before, groups, p, u);
    }
  }

  lemma {:induction false} InConfiguredOrder(upstreams: seq<UpstreamConfig>, groups: seq<GroupConfig>, p: int)
    ensures IsSubsequence(AtPriority(upstreams, groups, p), upstreams)
  {
    if upstreams != [] {
      var before, last := upstreams[..|upstreams| - 1], upstreams[|upstreams| - 1];
      InConfiguredOrder(before, groups, p);
      var rest := AtPriority(before, groups, p);
      assert (rest + [last])[..|rest|] == rest;
    }
  }

  /** Grouping is a partition that keeps the order: every upstream lands at its own priority,
      as often as it is configured, and nowhere else. */
  lemma GroupingPartitions(
      upstreams: seq<UpstreamConfig>, groups: seq<GroupConfig>, p: int, u: UpstreamConfig)
    ensures multiset(AtPriority(upstreams, groups, p))[u]
      == if PriorityOf(u.groupID, groups) == p then multiset(upstreams)[u] else 0
    ensures IsSubsequence(AtPriority(upstreams, groups, p), upstreams)
    ensures p in Grouped(upstreams, groups) <==> AtPriority(upstreams, groups, p) != []
    ensures p in Grouped(upstreams, groups) ==> Grouped(upstreams, groups)[p] == AtPriority(upstreams, groups, p)
  {
    AsOftenAsConfigured(upstreams, groups, p, u);
    InConfiguredOrder(upstreams, groups, p);
    AtPriorityMembers(upstreams, groups, p);
    var list := AtPriority(upstreams, groups, p);
    if list != [] {
      assert list[0] in list;
    }
    if p in Grouped(upstreams, groups) {
      var w :| w in upstreams && PriorityOf(w.groupID, groups) == p;
      assert w in list;
    }
  }

  lemma {:induction false} AtPriorityMembers(upstreams: seq<UpstreamConfig>, groups: seq<GroupConfig>, p: int)
    ensures forall u ::
      u in AtPriority(upstreams, groups, p) <==> u in upstreams && PriorityOf(u.groupID, groups) == p
    ensures DistinctUpstreams(upstreams) ==> DistinctUpstreams(AtPriority(upstreams, groups, p))
  {
    if upstreams != [] {
      var before, last := upstreams[..|upstreams| - 1], upstreams[|upstreams| - 1];
      assert upstreams == before + [last];
      AtPriorityMembers(before, groups, p);
      var rest := AtPriority(before, groups, p);
      if DistinctUpstreams(upstreams) {
        forall i | 0 <= i < |rest| ensures rest[i].id != last.id {
          assert rest[i] in before;
        }
      }
    }
  }

  lemma GroupedMembers(upstreams: seq<UpstreamConfig>, groups: seq<GroupConfig>, p: int, u: UpstreamConfig)
    ensures (p in Grouped(upstreams, groups) && u in Grouped(upstreams, groups)[p])
      <==> u in upstreams && PriorityOf(u.groupID, groups) == p
  {
    AtPriorityMembers(upstreams, groups, p);
  }

  /** How many upstreams share the priority of u: what every filter is told. */
  function Sharing(upstreams: seq<UpstreamConfig>, groups: seq<GroupConfig>, u: UpstreamConfig): nat {
    |AtPriority(upstreams, groups, PriorityOf(u.groupID, groups))|
  }

  lemma {:induction false} PriorityOfDeclared(groups: seq<GroupConfig>, groupID: string) returns (i: int)
    requires exists k :: 0 <= k < |groups| && groups[k].id == groupID
    ensures 0 <= i < |groups| && groups[i].id == groupID && PriorityOf(groupID, groups) == groups[i].priority
  {
    if groups[0].id == groupID {
      i := 0;
    } else {
      var k :| 0 <= k < |groups| && groups[k].id == groupID;
      assert groups[1..][k - 1] == groups[k];
      i := PriorityOfDeclared(groups[1..], groupID);
      i := i + 1;
    }
  }

  /** Validation makes the priority identify the group. */
  lemma PriorityIdentifiesGroup(
      upstreams: seq<UpstreamConfig>, groups: seq<GroupConfig>, u: UpstreamConfig, w: UpstreamConfig)
    requires ValidTopology(upstreams, groups) && groups != []
    requires u in upstreams && w in upstreams
    ensures PriorityOf(u.groupID, groups) == PriorityOf(w.groupID, groups) <==> u.groupID == w.groupID
  {
    assert ValidUpstream(u, groups) && ValidUpstream(w, groups);
    var i := PriorityOfDeclared(groups, u.groupID);
    var j := PriorityOfDeclared(groups, w.groupID);
  }

  /** The special case "only one upstream in the group" is taken exactly when the upstream is the
      only one that carries its group ID. */
  lemma LoneUpstreamIff(upstreams: seq<UpstreamConfig>, groups: seq<GroupConfig>, u: UpstreamConfig)
    requires ValidTopology(upstreams, groups) && groups != [] && u in upstreams
    ensures Sharing(upstreams, groups, u) == 1
      <==> forall w | w in upstreams && w.groupID == u.groupID :: w == u
  {
    var p := PriorityOf(u.groupID, groups);
    var list := AtPriority(upstreams, groups, p);
    AtPriorityMembers(upstreams, groups, p);
    assert u in list;
    forall w | w in upstreams ensures w.groupID == u.groupID <==> w in list {
      PriorityIdentifiesGroup(upstreams, groups, u, w);
    }
    if |list| != 1 {
      assert list[0] in list && list[1] in list && list[0].id != list[1].id;
    } else {
      assert list == [list[0]];
    }
  }

  /** The lookup in `Route`: a later configuration with the same ID overwrites an earlier one. */
  method LookupConfig(upstreams: seq<UpstreamConfig>, upstreamID: string) returns (config: UpstreamConfig)
    ensures (forall i | 0 <= i < |upstreams| :: upstreams[i].id != upstreamID) ==> config == NO_UPSTREAM
    ensures forall i | 0 <= i < |upstreams| && upstreams[i].id == upstreamID
                       && (forall j | i < j < |upstreams| :: upstreams[j].id != upstreamID) :: config == upstreams[i]
  {
    config := NO_UPSTREAM;
    for n := 0 to |upstreams|
      invariant (forall i | 0 <= i < n :: upstreams[i].id != upstreamID) ==> config == NO_UPSTREAM
      invariant forall i | 0 <= i < n && upstreams[i].id == upstreamID
                           && (forall j | i < j < n :: upstreams[j].id != upstreamID) :: config == upstreams[i]
    {
      if upstreams[n].id == upstreamID {
        config := upstreams[n];
      }
    }
  }

  /** config passes the filters, and nothing at a smaller priority number does. */
  ghost predicate IsOptimal(
      upstreams: seq<UpstreamConfig>, groups: seq<GroupConfig>, filters: seq<Filter>, snap: Snapshot,
      config: UpstreamConfig)
  {
    && config in upstreams
    && PassesAll(filters, snap, config, Sharing(upstreams, groups, config))
    && forall w | w in upstreams && PriorityOf(w.groupID, groups) < PriorityOf(config.groupID, groups) ::
         !PassesAll(filters, snap, w, Sharing(upstreams, groups, w))
  }

  /** End to end, for any counter: the upstream picked is optimal, and it is no other than the
      configured upstream with the returned ID. */
  lemma PickIsOptimal(
      upstreams: seq<UpstreamConfig>, groups: seq<GroupConfig>, filters: seq<Filter>, snap: Snapshot,
      counter: UInt64, id: string)
    returns (config: UpstreamConfig)
    requires Route(Survivors(Grouped(upstreams, groups), filters, snap), counter).outcome == Picked(id)
    ensures config.id == id && IsOptimal(upstreams, groups, filters, snap, config)
    ensures DistinctUpstreams(upstreams) ==> forall w | w in upstreams && w.id == id :: w == config
  {
    var m := Grouped(upstreams, groups);
    var s := Survivors(m, filters, snap);
    BestPriorityExists(s);
    var p :| IsBestPriority(s, p);
    var i := GoIndex((counter + 1) % TWO_64, |s[p]|);
    config := s[p][i];
    SurvivorsMeaning(m, filters, snap, p, config);
    GroupedMembers(upstreams, groups, p, config);
    forall w | w in upstreams && PriorityOf(w.groupID, groups) < p
      ensures !PassesAll(filters, snap, w, Sharing(upstreams, groups, w))
    {
      var q := PriorityOf(w.groupID, groups);
      GroupedMembers(upstreams, groups, q, w);
      SurvivorsMeaning(m, filters, snap, q, w);
    }
  }

  /** Nothing is picked exactly when nothing passes. */
  lemma NothingPickedIff(
      upstreams: seq<UpstreamConfig>, groups: seq<GroupConfig>, filters: seq<Filter>, snap: Snapshot, counter: UInt64)
    ensures Route(Survivors(Grouped(upstreams, groups), filters, snap), counter).outcome == NoHealthyUpstreams
      <==> forall w | w in upstreams :: !PassesAll(filters, snap, w, Sharing(upstreams, groups, w))
  {
    var m := Grouped(upstreams, groups);
    SurvivorsNonEmpty(m, filters, snap);
    forall w | w in upstreams
      ensures PassesAll(filters, snap, w, Sharing(upstreams, groups, w)) ==> HasUpstream(Survivors(m, filters, snap))
    {
      GroupedMembers(upstreams, groups, PriorityOf(w.groupID, groups), w);
    }
    if p, w :| p in m && w in m[p] && PassesAll(filters, snap, w, |m[p]|) {
      GroupedMembers(upstreams, groups, p, w);
    }
  }

  /** The same for always-route: the pick is optimal among what the least degradation leaves, and at
      the smallest priority number there is when no degradation leaves anything. */
  lemma AlwaysPickIsOptimal(
      upstreams: seq<UpstreamConfig>, groups: seq<GroupConfig>, filters: seq<Filter>, removable: seq<FilterType>,
      snap: Snapshot, counter: UInt64, id: string)
    returns (config: UpstreamConfig)
    requires Route(Target(Grouped(upstreams, groups), filters, removable, snap), counter).outcome == Picked(id)
    ensures config.id == id && config in upstreams
    ensures DistinctUpstreams(upstreams) ==> forall w | w in upstreams && w.id == id :: w == config
    ensures forall k: nat | IsLeast(Grouped(upstreams, groups), filters, removable, snap, k) ::
      IsOptimal(upstreams, groups, AfterDrops(filters, removable, k), snap, config)
    ensures (forall k: nat :: !IsLeast(Grouped(upstreams, groups), filters, removable, snap, k)) ==>
      IsOptimal(upstreams, groups, [], snap, config)
  {
    var m := Grouped(upstreams, groups);
    if k: nat :| IsLeast(m, filters, removable, snap, k) {
      TargetAtLeast(m, filters, removable, snap, k, counter);
      config := PickIsOptimal(upstreams, groups, AfterDrops(filters, removable, k), snap, counter, id);
    } else {
      NoFiltersRouteAlike(m, snap, counter);
      config := PickIsOptimal(upstreams, groups, [], snap, counter, id);
    }
  }

  /** The filter of a chain as it is wired: peers, height in the group, methods, height overall. */
  function ChainFilter(maxBlocksBehind: UInt64): Filter {
    AndFilter([
      AndFilter([HasEnoughPeers]), IsAtMaxHeightForGroup, AreMethodsAllowed, IsCloseToGlobalMaxHeight(maxBlocksBehind)
    ])
  }

  /** The filters that do not ask the store. */
  predicate MayServe(snap: Snapshot, u: UpstreamConfig) {
    u.id in snap.enoughPeers && forall i | 0 <= i < |snap.methods| :: IsMethodAllowed(u, snap.methods[i])
  }

  predicate HeightsPass(snap: Snapshot, u: UpstreamConfig, maxBlocksBehind: UInt64, n: nat) {
    IsAtMaxForGroup(snap.askedForGroup(u.id), n) && IsCloseToGlobalMax(snap.askedForGlobal(u.id), maxBlocksBehind)
  }

  lemma ChainFilterVerdict(maxBlocksBehind: UInt64, snap: Snapshot, u: UpstreamConfig, n: nat)
    ensures PassesAll([ChainFilter(maxBlocksBehind)], snap, u, n)
      <==> MayServe(snap, u) && HeightsPass(snap, u, maxBlocksBehind, n)
  {
    var peers := [HasEnoughPeers];
    var all := ChainFilter(maxBlocksBehind).filters;
    assert all[0] == AndFilter(peers) && all[1] == IsAtMaxHeightForGroup && all[2] == AreMethodsAllowed;
    assert all[3] == IsCloseToGlobalMaxHeight(maxBlocksBehind) && |all| == 4;
    assert Passes(all[0], snap, u, n) <==> Passes(peers[0], snap, u, n);
    assert Passes(ChainFilter(maxBlocksBehind), snap, u, n) <==>
      && Passes(all[0], snap, u, n) && Passes(all[1], snap, u, n)
      && Passes(all[2], snap, u, n) && Passes(all[3], snap, u, n);
    assert [ChainFilter(maxBlocksBehind)][0] == ChainFilter(maxBlocksBehind);
  }

  /** What the height filters are told is what the store has answered in one pass. */
  ghost predicate IsToldBy(snap: Snapshot, s: StoreProtocol.System, pass: map<string, Asked>) {
    forall u | u in pass ::
      && (pass[u].group < |s.calls| && s.calls[pass[u].group].pc.Answered? ==>
            snap.askedForGroup(u) == s.calls[pass[u].group].pc.status)
      && (pass[u].global.Some? && pass[u].global.value < |s.calls| && s.calls[pass[u].global.value].pc.Answered? ==>
            snap.askedForGlobal(u) == s.calls[pass[u].global.value].pc.status)
  }

  /** Each configured upstream, in the group it is configured with, and what its filters are told of
      the number sharing its priority. */
  ghost predicate IsGroupMap(
      groupOf: map<string, string>, count: string -> nat, upstreams: seq<UpstreamConfig>, groups: seq<GroupConfig>)
  {
    && (forall u | u in upstreams ::
          u.id in groupOf && groupOf[u.id] == u.groupID && count(u.id) == Sharing(upstreams, groups, u))
    && forall id | id in groupOf :: exists i :: 0 <= i < |upstreams| && upstreams[i].id == id
  }

  /** From the store to routing, over every run of the store with its callers. The wired filters put
      their questions one by one, the group's first; if nothing is reported between the first and the
      last, heights had not gone down before and nobody had an error, then routing finds an upstream,
      whatever the groups and the counter, provided peers and methods rule nobody out. */
  lemma SteadyHeightsRoute(
      upstreams: seq<UpstreamConfig>, groups: seq<GroupConfig>, maxBlocksBehind: UInt64,
      states: seq<StoreProtocol.System>, steps: seq<StoreProtocol.Step>, i: nat, pass: map<string, Asked>,
      groupOf: map<string, string>, count: string -> nat, lo: nat, hi: nat, snap: Snapshot, counter: UInt64)
    requires upstreams != [] && IsGroupMap(groupOf, count, upstreams, groups)
    requires StoreProtocol.IsRun(states, steps) && i < |states| && lo <= hi < |states[i].log|
    requires IsPassOf(states[i], pass, groupOf, count, lo, hi) && IsToldBy(snap, states[i], pass)
    requires Quiet(StoreProtocol.OpsOf(states[i].log), lo, hi)
    requires var before := StoreProtocol.OpsOf(states[i].log)[..lo];
      && ReportsFrom(before, groupOf) && ErrorFree(before, groupOf) && NeverGoesDown(before)
      && Fold(before).globalMax + maxBlocksBehind < TWO_64
    requires forall u | u in upstreams :: MayServe(snap, u)
    ensures Route(Survivors(Grouped(upstreams, groups), [ChainFilter(maxBlocksBehind)], snap), counter).outcome
      != NoHealthyUpstreams
  {
    assert upstreams[0] in upstreams && upstreams[0].id in groupOf;
    var id := RunHasPassingUpstream(states, steps, i, pass, groupOf, maxBlocksBehind, count, lo, hi);
    var k :| 0 <= k < |upstreams| && upstreams[k].id == id;
    var u := upstreams[k];
    assert u in upstreams;
    ChainFilterVerdict(maxBlocksBehind, snap, u, Sharing(upstreams, groups, u));
    NothingPickedIff(upstreams, groups, [ChainFilter(maxBlocksBehind)], snap, counter);
  }

  /** And exactly when does it find none: when each upstream is ruled out by peers or methods, or was
      rejected on its own two answers. */
  lemma HeightsRejectAllIff(
      upstreams: seq<UpstreamConfig>, groups: seq<GroupConfig>, maxBlocksBehind: UInt64, snap: Snapshot,
      counter: UInt64)
    ensures Route(Survivors(Grouped(upstreams, groups), [ChainFilter(maxBlocksBehind)], snap), counter).outcome
        == NoHealthyUpstreams
      <==> forall u | u in upstreams ::
        !(MayServe(snap, u) && HeightsPass(snap, u, maxBlocksBehind, Sharing(upstreams, groups, u)))
  {
    NothingPickedIff(upstreams, groups, [ChainFilter(maxBlocksBehind)], snap, counter);
    forall u | u in upstreams
      ensures PassesAll([ChainFilter(maxBlocksBehind)], snap, u, Sharing(upstreams, groups, u)) <==>
        MayServe(snap, u) && HeightsPass(snap, u, maxBlocksBehind, Sharing(upstreams, groups, u))
    {
      ChainFilterVerdict(maxBlocksBehind, snap, u, Sharing(upstreams, groups, u));
    }
  }

  // ---- The wired strategies ----

  /** A chain's filters, from the most to the least important. */
  function WiredFilters(maxBlocksBehind: UInt64): seq<Filter> {
    [ChainFilter(maxBlocksBehind), IsErrorRateAcceptable, IsLatencyAcceptable]
  }

  /** What is asked of an upstream after k removals: peers, methods and heights always; an acceptable
      error rate until it is given up second; acceptable latency until it is given up first. */
  lemma WiredVerdicts(maxBlocksBehind: UInt64, k: nat, snap: Snapshot, u: UpstreamConfig, n: nat)
    requires k <= |REMOVABLE|
    ensures PassesAll(AfterDrops(WiredFilters(maxBlocksBehind), REMOVABLE, k), snap, u, n) <==>
      && u.id in snap.enoughPeers
      && (forall i | 0 <= i < |snap.methods| :: IsMethodAllowed(u, snap.methods[i]))
      && IsAtMaxForGroup(snap.askedForGroup(u.id), n)
      && IsCloseToGlobalMax(snap.askedForGlobal(u.id), maxBlocksBehind)
      && (k < 2 ==> u.id in snap.errorRateOk)
      && (k < 1 ==> u.id in snap.latencyOk)
  {
    var filters := WiredFilters(maxBlocksBehind);
    var all := AfterDrops(filters, REMOVABLE, k);
    ChainFilterVerdict(maxBlocksBehind, snap, u, n);
    assert [filters[0]][0] == filters[0];
    assert PassesAll([filters[0]], snap, u, n) <==> Passes(filters[0], snap, u, n);
    WiredDegradation(filters[0]);
    assert all == filters[..3 - k];
    assert PassesAll(all, snap, u, n) <==>
      && Passes(filters[0], snap, u, n)
      && (k < 2 ==> Passes(filters[1], snap, u, n))
      && (k < 1 ==> Passes(filters[2], snap, u, n));
  }

  /** The upstream meets what is asked after k removals. */
  predicate IsInTier(
      upstreams: seq<UpstreamConfig>, groups: seq<GroupConfig>, maxBlocksBehind: UInt64, snap: Snapshot, k: nat,
      u: UpstreamConfig)
  {
    && MayServe(snap, u) && HeightsPass(snap, u, maxBlocksBehind, Sharing(upstreams, groups, u))
    && (k < 2 ==> u.id in snap.errorRateOk)
    && (k < 1 ==> u.id in snap.latencyOk)
  }

  ghost predicate SomeoneInTier(
      upstreams: seq<UpstreamConfig>, groups: seq<GroupConfig>, maxBlocksBehind: UInt64, snap: Snapshot, k: nat)
  {
    exists u :: u in upstreams && IsInTier(upstreams, groups, maxBlocksBehind, snap, k, u)
  }

  lemma LeftIff(
      upstreams: seq<UpstreamConfig>, groups: seq<GroupConfig>, maxBlocksBehind: UInt64, snap: Snapshot, k: nat)
    requires k <= |REMOVABLE|
    ensures Left(Grouped(upstreams, groups), WiredFilters(maxBlocksBehind), REMOVABLE, snap, k) != map[]
      <==> SomeoneInTier(upstreams, groups, maxBlocksBehind, snap, k)
  {
    var filters := AfterDrops(WiredFilters(maxBlocksBehind), REMOVABLE, k);
    SurvivorsNonEmpty(Grouped(upstreams, groups), filters, snap);
    NothingPickedIff(upstreams, groups, filters, snap, 0);
    forall u | u in upstreams
      ensures PassesAll(filters, snap, u, Sharing(upstreams, groups, u))
        <==> IsInTier(upstreams, groups, maxBlocksBehind, snap, k, u)
    {
      WiredVerdicts(maxBlocksBehind, k, snap, u, Sharing(upstreams, groups, u));
    }
  }

  /** What always-route picks as wired: an upstream of the best tier that has any, at that tier's
      smallest priority number; and one at the smallest priority number of all if no tier has any. */
  lemma WiredAlwaysPick(
      upstreams: seq<UpstreamConfig>, groups: seq<GroupConfig>, maxBlocksBehind: UInt64, snap: Snapshot,
      counter: UInt64, id: string, k: nat)
    returns (config: UpstreamConfig)
    requires Route(Target(Grouped(upstreams, groups), WiredFilters(maxBlocksBehind), REMOVABLE, snap), counter).outcome
      == Picked(id)
    requires k <= |REMOVABLE| + 1
    requires forall j: nat | j < k :: !SomeoneInTier(upstreams, groups, maxBlocksBehind, snap, j)
    requires k <= |REMOVABLE| ==> SomeoneInTier(upstreams, groups, maxBlocksBehind, snap, k)
    ensures config in upstreams && config.id == id
    ensures k <= |REMOVABLE| ==> IsInTier(upstreams, groups, maxBlocksBehind, snap, k, config)
    ensures forall w | w in upstreams && PriorityOf(w.groupID, groups) < PriorityOf(config.groupID, groups) ::
      k <= |REMOVABLE| && !IsInTier(upstreams, groups, maxBlocksBehind, snap, k, w)
  {
    var m, filters := Grouped(upstreams, groups), WiredFilters(maxBlocksBehind);
    config := AlwaysPickIsOptimal(upstreams, groups, filters, REMOVABLE, snap, counter, id);
    TierIsLeast(upstreams, groups, maxBlocksBehind, snap, k);
    if k <= |REMOVABLE| {
      assert IsOptimal(upstreams, groups, AfterDrops(filters, REMOVABLE, k), snap, config);
      forall w | w in upstreams
        ensures PassesAll(AfterDrops(filters, REMOVABLE, k), snap, w, Sharing(upstreams, groups, w))
          <==> IsInTier(upstreams, groups, maxBlocksBehind, snap, k, w)
      {
        WiredVerdicts(maxBlocksBehind, k, snap, w, Sharing(upstreams, groups, w));
      }
    } else {
      assert IsOptimal(upstreams, groups, [], snap, config);
    }
  }

  lemma TierIsLeast(
      upstreams: seq<UpstreamConfig>, groups: seq<GroupConfig>, maxBlocksBehind: UInt64, snap: Snapshot, k: nat)
    requires k <= |REMOVABLE| + 1
    requires forall j: nat | j < k :: !SomeoneInTier(upstreams, groups, maxBlocksBehind, snap, j)
    requires k <= |REMOVABLE| ==> SomeoneInTier(upstreams, groups, maxBlocksBehind, snap, k)
    ensures var m, filters := Grouped(upstreams, groups), WiredFilters(maxBlocksBehind);
      if k <= |REMOVABLE| then IsLeast(m, filters, REMOVABLE, snap, k)
      else forall j: nat :: !IsLeast(m, filters, REMOVABLE, snap, j)
  {
    var m, filters := Grouped(upstreams, groups), WiredFilters(maxBlocksBehind);
    forall j: nat | j <= |REMOVABLE|
      ensures Left(m, filters, REMOVABLE, snap, j) != map[]
        <==> SomeoneInTier(upstreams, groups, maxBlocksBehind, snap, j)
    {
      LeftIff(upstreams, groups, maxBlocksBehind, snap, j);
    }
  }

  // ---- The router ----

  /** Where an upstream that passes is found. */
  lemma SurvivesAt(
      upstreams: seq<UpstreamConfig>, groups: seq<GroupConfig>, filters: seq<Filter>, snap: Snapshot, p: int,
      w: UpstreamConfig)
    ensures var s := Survivors(Grouped(upstreams, groups), filters, snap);
      (p in s && w in s[p])
      <==> w in upstreams && PriorityOf(w.groupID, groups) == p
           && PassesAll(filters, snap, w, Sharing(upstreams, groups, w))
  {
    SurvivorsMeaning(Grouped(upstreams, groups), filters, snap, p, w);
    GroupedMembers(upstreams, groups, p, w);
  }

  /** The upstreams routed over are exactly the optimal ones. */
  lemma BestAreOptimal(
      upstreams: seq<UpstreamConfig>, groups: seq<GroupConfig>, filters: seq<Filter>, snap: Snapshot, u: UpstreamConfig)
    ensures u in BestList(Survivors(Grouped(upstreams, groups), filters, snap))
      <==> IsOptimal(upstreams, groups, filters, snap, u)
  {
    if IsOptimal(upstreams, groups, filters, snap, u) {
      OptimalIsBest(upstreams, groups, filters, snap, u);
    }
    if u in BestList(Survivors(Grouped(upstreams, groups), filters, snap)) {
      BestIsOptimal(upstreams, groups, filters, snap, u);
    }
  }

  lemma OptimalIsBest(
      upstreams: seq<UpstreamConfig>, groups: seq<GroupConfig>, filters: seq<Filter>, snap: Snapshot, u: UpstreamConfig)
    requires IsOptimal(upstreams, groups, filters, snap, u)
    ensures u in BestList(Survivors(Grouped(upstreams, groups), filters, snap))
  {
    var s, p := Survivors(Grouped(upstreams, groups), filters, snap), PriorityOf(u.groupID, groups);
    SurvivesAt(upstreams, groups, filters, snap, p, u);
    forall q | q in s && s[q] != [] ensures p <= q {
      SurvivesAt(upstreams, groups, filters, snap, q, s[q][0]);
    }
    assert IsBestPriority(s, p);
  }

  lemma BestIsOptimal(
      upstreams: seq<UpstreamConfig>, groups: seq<GroupConfig>, filters: seq<Filter>, snap: Snapshot, u: UpstreamConfig)
    requires u in BestList(Survivors(Grouped(upstreams, groups), filters, snap))
    ensures IsOptimal(upstreams, groups, filters, snap, u)
  {
    var s := Survivors(Grouped(upstreams, groups), filters, snap);
    BestPriorityExists(s);
    var p :| IsBestPriority(s, p);
    SurvivesAt(upstreams, groups, filters, snap, p, u);
    forall w | w in upstreams && PriorityOf(w.groupID, groups) < p
      ensures !PassesAll(filters, snap, w, Sharing(upstreams, groups, w))
    {
      SurvivesAt(upstreams, groups, filters, snap, PriorityOf(w.groupID, groups), w);
    }
  }

  lemma BestAreDistinct(
      upstreams: seq<UpstreamConfig>, groups: seq<GroupConfig>, filters: seq<Filter>, snap: Snapshot)
    requires DistinctUpstreams(upstreams)
    ensures DistinctUpstreams(BestList(Survivors(Grouped(upstreams, groups), filters, snap)))
  {
    var m := Grouped(upstreams, groups);
    var s := Survivors(m, filters, snap);
    if HasUpstream(s) {
      BestPriorityExists(s);
      var p :| IsBestPriority(s, p);
      AtPriorityMembers(upstreams, groups, p);
      KeptDistinct(m[p], filters, snap, |m[p]|);
    }
  }

  /** Fairness of requests: while verdicts stay the same, any two optimal upstreams are picked equally
      often up to one, and over as many requests as there are optimal upstreams each is picked once. */
  lemma RequestsAreFair(
      upstreams: seq<UpstreamConfig>, groups: seq<GroupConfig>, filters: seq<Filter>, snap: Snapshot,
      c: UInt64, requests: nat, u: UpstreamConfig, w: UpstreamConfig)
    requires DistinctUpstreams(upstreams) && c + requests < TWO_63
    requires IsOptimal(upstreams, groups, filters, snap, u) && IsOptimal(upstreams, groups, filters, snap, w)
    ensures var s := Survivors(Grouped(upstreams, groups), filters, snap);
      var decisions := Calls(s, c, requests);
      && Share(decisions, u.id) <= Share(decisions, w.id) + 1
      && (requests == |BestList(s)| ==> Share(decisions, u.id) == 1)
  {
    var s := Survivors(Grouped(upstreams, groups), filters, snap);
    BestAreOptimal(upstreams, groups, filters, snap, u);
    BestAreOptimal(upstreams, groups, filters, snap, w);
    BestAreDistinct(upstreams, groups, filters, snap);
    var i :| 0 <= i < |BestList(s)| && BestList(s)[i] == u;
    var j :| 0 <= j < |BestList(s)| && BestList(s)[j] == w;
    CallsAreFair(s, c, requests, i, j);
  }

  /** Which strategy a chain is wired with. */
  datatype Strategy = Plain(plain: FilteringRoutingStrategy) | Always(always: AlwaysRouteFilteringStrategy)

  function Backing(strategy: Strategy): PriorityRoundRobinStrategy {
    match strategy
    case Plain(s) => s.backingStrategy
    case Always(s) => s.backingStrategy
  }

  /** How a chain's strategy is wired from its resolved routing options. */
  method Wire(routing: ConfigSpec.Routing) returns (strategy: Strategy)
    ensures fresh(Backing(strategy)) && Backing(strategy).counter == 0
    ensures strategy.Always? <==> routing.alwaysRoute == Some(true)
    ensures var filters := WiredFilters(MaxBlocksBehind(routing.maxBlocksBehind));
      match strategy
      case Plain(s) => s.nodeFilter == AndFilter(filters)
      case Always(s) =>
        s.nodeFilters == filters && s.removableFilters == [IsErrorRateAcceptableType, IsLatencyAcceptableType]
  {
    var chainFilter := ChainFilter(MaxBlocksBehind(routing.maxBlocksBehind));
    var nodeFilters := [chainFilter, IsErrorRateAcceptable, IsLatencyAcceptable];
    var alwaysRoute := false;
    if routing.alwaysRoute != None {
      alwaysRoute := routing.alwaysRoute.value;
    }
    var backing := new PriorityRoundRobinStrategy();
    if alwaysRoute {
      var s := new AlwaysRouteFilteringStrategy(nodeFilters, REMOVABLE, backing);
      strategy := Always(s);
    } else {
      var s := new FilteringRoutingStrategy(AndFilter(nodeFilters), backing);
      strategy := Plain(s);
    }
  }

  /** What the backing strategy is given to choose from. */
  ghost function Offered(strategy: Strategy, m: PriorityMap, snap: Snapshot): PriorityMap {
    match strategy
    case Plain(s) => Survivors(m, [s.nodeFilter], snap)
    case Always(s) => Target(m, s.nodeFilters, s.removableFilters, snap)
  }

  lemma GroupedHasUpstream(upstreams: seq<UpstreamConfig>, groups: seq<GroupConfig>)
    ensures HasUpstream(Grouped(upstreams, groups)) <==> upstreams != []
  {
    var m := Grouped(upstreams, groups);
    if upstreams != [] {
      GroupedMembers(upstreams, groups, PriorityOf(upstreams[0].groupID, groups), upstreams[0]);
    }
    if HasUpstream(m) {
      var p :| p in m && m[p] != [];
      GroupedMembers(upstreams, groups, p, m[p][0]);
    }
  }

  lemma PanicsLate(m: PriorityMap, counter: UInt64)
    ensures RoundRobin.Route(m, counter).outcome == Panicked ==> counter + 1 >= TWO_63
  {
    if counter + 1 < TWO_63 && HasUpstream(m) {
      RouteBelow(m, counter);
    }
  }

  /** Without groups, everybody has priority 0. */
  lemma UngroupedAtZero(upstreams: seq<UpstreamConfig>)
    ensures Grouped(upstreams, []) == if upstreams == [] then map[] else map[0 := upstreams]
  {
    AllAtZero(upstreams);
    if upstreams != [] {
      assert upstreams[0] in upstreams;
    }
  }

  lemma {:induction false} AllAtZero(upstreams: seq<UpstreamConfig>)
    ensures AtPriority(upstreams, [], 0) == upstreams
  {
    if upstreams != [] {
      AllAtZero(upstreams[..|upstreams| - 1]);
      assert upstreams == upstreams[..|upstreams| - 1] + [upstreams[|upstreams| - 1]];
    }
  }

  /** A chain's router. */
  class SimpleRouter {
    const upstreamConfigs: seq<UpstreamConfig>
    const groupConfigs: seq<GroupConfig>
    const priorityToUpstreams: PriorityMap
    const routingStrategy: Strategy

    ghost predicate Valid() {
      && ValidTopology(upstreamConfigs, groupConfigs)
      && priorityToUpstreams == Grouped(upstreamConfigs, groupConfigs)
    }

    constructor (upstreams: seq<UpstreamConfig>, groups: seq<GroupConfig>, strategy: Strategy)
      requires ValidTopology(upstreams, groups)
      ensures Valid()
      ensures upstreamConfigs == upstreams && groupConfigs == groups && routingStrategy == strategy
    {
      upstreamConfigs := upstreams;
      groupConfigs := groups;
      routingStrategy := strategy;
      var grouped := GroupUpstreamsByPriority(upstreams, groups);
      priorityToUpstreams := grouped;
    }

    /** One decision of the strategy. */
    method Decide(snap: Snapshot) returns (outcome: Outcome)
      modifies Backing(routingStrategy)
      ensures Decision(outcome, Backing(routingStrategy).counter)
        == RoundRobin.Route(Offered(routingStrategy, priorityToUpstreams, snap), old(Backing(routingStrategy).counter))
    {
      match routingStrategy {
        case Plain(s) =>
          outcome := s.RouteNextRequest(priorityToUpstreams, snap);
        case Always(s) =>
          ghost var passes;
          outcome, passes := s.RouteNextRequest(priorityToUpstreams, snap);
      }
    }

    /** Up to the moment the request is sent. The strategy is asked once, so the counter moves by one;
        the configuration is the only one with the picked ID, and optimal: behind everything with the
        plain strategy, behind what the least degradation leaves with always-route. There is an error
        exactly when no upstream passes, or with always-route when there is none. */
    method Route(snap: Snapshot) returns (outcome: Outcome, configToRoute: UpstreamConfig)
      requires Valid()
      modifies Backing(routingStrategy)
      ensures Decision(outcome, Backing(routingStrategy).counter)
        == RoundRobin.Route(Offered(routingStrategy, priorityToUpstreams, snap), old(Backing(routingStrategy).counter))
      ensures outcome.Picked? ==>
        && configToRoute in upstreamConfigs
        && forall w | w in upstreamConfigs :: w.id == outcome.id <==> w == configToRoute
      ensures routingStrategy.Plain? ==> var filters := [routingStrategy.plain.nodeFilter];
        && (outcome.Picked? ==> IsOptimal(upstreamConfigs, groupConfigs, filters, snap, configToRoute))
        && (outcome == NoHealthyUpstreams <==> forall w | w in upstreamConfigs ::
              !PassesAll(filters, snap, w, Sharing(upstreamConfigs, groupConfigs, w)))
      ensures routingStrategy.Always? ==> var s := routingStrategy.always;
        && (outcome.Picked? ==> IsOptimalLeast(s.nodeFilters, s.removableFilters, snap, configToRoute))
        && (outcome == NoHealthyUpstreams <==> upstreamConfigs == [])
      ensures outcome == Panicked ==> old(Backing(routingStrategy).counter) + 1 >= TWO_63
    {
      ghost var before := Backing(routingStrategy).counter;
      configToRoute := NO_UPSTREAM;
      outcome := Decide(snap);
      if outcome.Picked? {
        ghost var best := PickedConfig(snap, before, outcome.id);
        configToRoute := LookupConfig(upstreamConfigs, outcome.id);
        LookupFinds(upstreamConfigs, best);
      }
      ErrorIff(snap, before);
      PanicsLate(Offered(routingStrategy, priorityToUpstreams, snap), before);
    }

    /** Optimal among what the least degradation leaves, or of all if none leaves anything. */
    ghost predicate IsOptimalLeast(
        filters: seq<Filter>, removable: seq<FilterType>, snap: Snapshot, config: UpstreamConfig)
    {
      && (forall k: nat | IsLeast(priorityToUpstreams, filters, removable, snap, k) ::
            IsOptimal(upstreamConfigs, groupConfigs, AfterDrops(filters, removable, k), snap, config))
      && ((forall k: nat :: !IsLeast(priorityToUpstreams, filters, removable, snap, k)) ==>
            IsOptimal(upstreamConfigs, groupConfigs, [], snap, config))
    }

    lemma ErrorIff(snap: Snapshot, counter: UInt64)
      requires Valid()
      ensures var outcome := RoundRobin.Route(Offered(routingStrategy, priorityToUpstreams, snap), counter).outcome;
        && (routingStrategy.Plain? ==>
              (outcome == NoHealthyUpstreams <==> forall w | w in upstreamConfigs ::
                 !PassesAll([routingStrategy.plain.nodeFilter], snap, w, Sharing(upstreamConfigs, groupConfigs, w))))
        && (routingStrategy.Always? ==> (outcome == NoHealthyUpstreams <==> upstreamConfigs == []))
    {
      match routingStrategy {
        case Plain(s) =>
          NothingPickedIff(upstreamConfigs, groupConfigs, [s.nodeFilter], snap, counter);
        case Always(s) =>
          TargetHasUpstreamIff(priorityToUpstreams, s.nodeFilters, s.removableFilters, snap);
          CounterMeaning(Target(priorityToUpstreams, s.nodeFilters, s.removableFilters, snap), counter);
          GroupedHasUpstream(upstreamConfigs, groupConfigs);
      }
    }

    lemma PickedConfig(snap: Snapshot, counter: UInt64, id: string) returns (best: UpstreamConfig)
      requires Valid()
      requires RoundRobin.Route(Offered(routingStrategy, priorityToUpstreams, snap), counter).outcome == Picked(id)
      ensures best in upstreamConfigs && best.id == id
      ensures forall w | w in upstreamConfigs :: w.id == id <==> w == best
      ensures routingStrategy.Plain? ==>
        IsOptimal(upstreamConfigs, groupConfigs, [routingStrategy.plain.nodeFilter], snap, best)
      ensures routingStrategy.Always? ==>
        IsOptimalLeast(routingStrategy.always.nodeFilters, routingStrategy.always.removableFilters, snap, best)
    {
      match routingStrategy {
        case Plain(s) =>
          best := PickIsOptimal(upstreamConfigs, groupConfigs, [s.nodeFilter], snap, counter, id);
        case Always(s) =>
          best := AlwaysPickIsOptimal(
            upstreamConfigs, groupConfigs, s.nodeFilters, s.removableFilters, snap, counter, id);
      }
    }

    /** Consecutive requests while verdicts stay the same: the decisions whose fairness is proved. */
    method RouteRequests(snap: Snapshot, requests: nat) returns (outcomes: seq<Outcome>)
      requires Valid()
      modifies Backing(routingStrategy)
      ensures |outcomes| == requests
      ensures var calls := Calls(Offered(routingStrategy, priorityToUpstreams, snap),
                                 old(Backing(routingStrategy).counter), requests);
        forall i | 0 <= i < requests :: outcomes[i] == calls[i].outcome
    {
      outcomes := [];
      ghost var m := Offered(routingStrategy, priorityToUpstreams, snap);
      ghost var c := Backing(routingStrategy).counter;
      for n := 0 to requests
        invariant |outcomes| == n
        invariant forall i | 0 <= i < n :: outcomes[i] == Calls(m, c, n)[i].outcome
        invariant Backing(routingStrategy).counter == if n == 0 then c else Calls(m, c, n)[n - 1].counter
      {
        var outcome, config := Route(snap);
        outcomes := outcomes + [outcome];
      }
    }
  }

  /** With unique IDs the lookup has exactly one candidate. */
  lemma LookupFinds(upstreams: seq<UpstreamConfig>, u: UpstreamConfig)
    requires DistinctUpstreams(upstreams) && u in upstreams
    ensures exists i ::
      0 <= i < |upstreams| && upstreams[i] == u && forall j | i < j < |upstreams| :: upstreams[j].id != u.id
  {
    var i :| 0 <= i < |upstreams| && upstreams[i] == u;
    assert forall j | i < j < |upstreams| :: upstreams[i].id != upstreams[j].id;
  }
}
