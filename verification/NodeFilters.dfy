/** Node filters as trees, judged against one snapshot of everything they consult. */
module NodeFilters {
  import opened Wrappers
  import opened ChainStore
  import opened HeightFilters
  import opened Topology

  datatype Filter =
    | AndFilter(filters: seq<Filter>)
    | HasEnoughPeers
    | IsErrorRateAcceptable
    | IsLatencyAcceptable
    | IsCloseToGlobalMaxHeight(maxBlocksBehind: UInt64)
    | IsAtMaxHeightForGroup
    | AreMethodsAllowed

  /** What the filters are told during one request, per upstream ID: by the store, which each height
      filter asks anew for each upstream, and by the peer check and the two circuit breakers. */
  datatype Snapshot = Snapshot(
    methods: seq<string>,
    askedForGlobal: string -> Status,
    askedForGroup: string -> Status,
    enoughPeers: set<string>,
    errorRateOk: set<string>,
    latencyOk: set<string>)

  /** The Go type of a filter. */
  datatype FilterType =
    | AndFilterType
    | HasEnoughPeersType
    | IsErrorRateAcceptableType
    | IsLatencyAcceptableType
    | IsCloseToGlobalMaxHeightType
    | IsAtMaxHeightForGroupType
    | AreMethodsAllowedType

  function TypeOf(f: Filter): FilterType {
    match f
    case AndFilter(_) => AndFilterType
    case HasEnoughPeers => HasEnoughPeersType
    case IsErrorRateAcceptable => IsErrorRateAcceptableType
    case IsLatencyAcceptable => IsLatencyAcceptableType
    case IsCloseToGlobalMaxHeight(_) => IsCloseToGlobalMaxHeightType
    case IsAtMaxHeightForGroup => IsAtMaxHeightForGroupType
    case AreMethodsAllowed => AreMethodsAllowedType
  }

  const ARCHIVE_METHODS: set<string> := {
    "eth_getBalance", "eth_getStorageAt", "eth_getTransactionCount", "eth_getCode", "eth_call", "eth_estimateGas",
    "trace_filter", "trace_block", "trace_get", "trace_transaction", "trace_call", "trace_callMany",
    "trace_rawTransaction", "trace_replayBlockTransactions", "trace_replayTransaction"
  }

  /** Reading state at a past block, and tracing. */
  lemma ArchiveMethods(name: string)
    ensures name in ARCHIVE_METHODS <==>
      || name == "eth_getBalance" || name == "eth_getStorageAt" || name == "eth_getTransactionCount"
      || name == "eth_getCode" || name == "eth_call" || name == "eth_estimateGas"
      || name == "trace_filter" || name == "trace_block" || name == "trace_get" || name == "trace_transaction"
      || name == "trace_call" || name == "trace_callMany" || name == "trace_rawTransaction"
      || name == "trace_replayBlockTransactions" || name == "trace_replayTransaction"
  {
  }

  predicate IsMethodAllowed(u: UpstreamConfig, name: string) {
    && !Lookup(u.disabled, name, false)
    && (name in ARCHIVE_METHODS && u.nodeType == "full" ==> Lookup(u.enabled, name, false))
  }

  /** A full node serves archive methods only if they are enabled for it; any other node serves them
      like other methods, which is unless they are disabled. */
  lemma MethodsAllowed(u: UpstreamConfig, name: string)
    ensures (name in u.disabled && u.disabled[name]) ==> !IsMethodAllowed(u, name)
    ensures !(name in u.disabled && u.disabled[name]) ==>
      && (u.nodeType != "full" ==> IsMethodAllowed(u, name))
      && (name !in ARCHIVE_METHODS ==> IsMethodAllowed(u, name))
      && (u.nodeType == "full" && name in ARCHIVE_METHODS ==>
            (IsMethodAllowed(u, name) <==> name in u.enabled && u.enabled[name]))
  {
  }

  /** The meaning of a filter: n is the number of upstreams that share u's priority. */
  predicate Passes(f: Filter, snap: Snapshot, u: UpstreamConfig, n: nat)
    decreases f
  {
    match f
    case AndFilter(filters) => forall i | 0 <= i < |filters| :: Passes(filters[i], snap, u, n)
    case HasEnoughPeers => u.id in snap.enoughPeers
    case IsErrorRateAcceptable => u.id in snap.errorRateOk
    case IsLatencyAcceptable => u.id in snap.latencyOk
    case IsCloseToGlobalMaxHeight(m) => IsCloseToGlobalMax(snap.askedForGlobal(u.id), m)
    case IsAtMaxHeightForGroup => IsAtMaxForGroup(snap.askedForGroup(u.id), n)
    case AreMethodsAllowed => forall i | 0 <= i < |snap.methods| :: IsMethodAllowed(u, snap.methods[i])
  }

  predicate PassesAll(filters: seq<Filter>, snap: Snapshot, u: UpstreamConfig, n: nat) {
    forall i | 0 <= i < |filters| :: Passes(filters[i], snap, u, n)
  }

  method ApplyMethodsAllowed(snap: Snapshot, u: UpstreamConfig) returns (ok: bool)
    ensures ok <==> forall i | 0 <= i < |snap.methods| :: IsMethodAllowed(u, snap.methods[i])
  {
    for k := 0 to |snap.methods|
      invariant forall i | 0 <= i < k :: IsMethodAllowed(u, snap.methods[i])
    {
      var name := snap.methods[k];
      if Lookup(u.disabled, name, false) {
        return false;
      }
      if name in ARCHIVE_METHODS && u.nodeType == "full" {
        if !Lookup(u.enabled, name, false) {
          return false;
        }
      }
    }
    return true;
  }

  method Apply(f: Filter, snap: Snapshot, u: UpstreamConfig, n: nat) returns (ok: bool)
    ensures ok <==> Passes(f, snap, u, n)
    decreases f
  {
    match f {
      case AndFilter(filters) =>
        var result := true;
        for k := 0 to |filters|
          invariant result
          invariant forall i | 0 <= i < k :: Passes(filters[i], snap, u, n)
        {
          var passing := Apply(filters[k], snap, u, n);
          if !passing {
            result := false;
            break;
          }
        }
        ok := result;
      case HasEnoughPeers => ok := u.id in snap.enoughPeers;
      case IsErrorRateAcceptable => ok := u.id in snap.errorRateOk;
      case IsLatencyAcceptable => ok := u.id in snap.latencyOk;
      case IsCloseToGlobalMaxHeight(m) => ok := IsCloseToGlobalMax(snap.askedForGlobal(u.id), m);
      case IsAtMaxHeightForGroup => ok := IsAtMaxForGroup(snap.askedForGroup(u.id), n);
      case AreMethodsAllowed => ok := ApplyMethodsAllowed(snap, u);
    }
  }

  /** The leaves of a filter tree, left to right. */
  function Leaves(f: Filter): seq<Filter>
    decreases f, 0
  {
    if f.AndFilter? then LeavesOf(f.filters) else [f]
  }

  function LeavesOf(filters: seq<Filter>): seq<Filter>
    decreases filters, 1
  {
    if filters == [] then [] else Leaves(filters[0]) + LeavesOf(filters[1..])
  }

  /** Nesting does not matter: a tree passes exactly when all its leaves do. */
  lemma {:induction false} NestingFlattens(f: Filter, snap: Snapshot, u: UpstreamConfig, n: nat)
    ensures Passes(f, snap, u, n) <==> PassesAll(Leaves(f), snap, u, n)
    decreases f, 0
  {
    if f.AndFilter? {
      NestingFlattensAll(f.filters, snap, u, n);
    } else {
      assert Leaves(f) == [f] && [f][0] == f;
    }
  }

  lemma {:induction false} NestingFlattensAll(filters: seq<Filter>, snap: Snapshot, u: UpstreamConfig, n: nat)
    ensures PassesAll(filters, snap, u, n) <==> PassesAll(LeavesOf(filters), snap, u, n)
    decreases filters, 1
  {
    if filters != [] {
      var first, rest := Leaves(filters[0]), LeavesOf(filters[1..]);
      NestingFlattens(filters[0], snap, u, n);
      NestingFlattensAll(filters[1..], snap, u, n);
      PassesAllConcat([filters[0]], filters[1..], snap, u, n);
      assert [filters[0]] + filters[1..] == filters;
      PassesAllConcat(first, rest, snap, u, n);
    }
  }

  lemma PassesAllConcat(a: seq<Filter>, b: seq<Filter>, snap: Snapshot, u: UpstreamConfig, n: nat)
    ensures PassesAll(a + b, snap, u, n) <==> PassesAll(a, snap, u, n) && PassesAll(b, snap, u, n)
  {
    if PassesAll(a + b, snap, u, n) {
      assert forall i | 0 <= i < |a| :: a[i] == (a + b)[i];
      assert forall i | 0 <= i < |b| :: b[i] == (a + b)[|a| + i];
    }
  }
}
