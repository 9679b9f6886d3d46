/** Routing configuration as plain values, resolved without any sharing. */
module ConfigSpec {
  import opened Wrappers
  import opened StringLists

  /** Durations are in nanoseconds, as in Go. */
  const SECOND := 1_000_000_000
  const DEFAULT_BAN_WINDOW := 300_000_000_000
  const DEFAULT_DETECTION_WINDOW := 60_000_000_000
  const DEFAULT_MAX_LATENCY := 10_000_000_000
  const DEFAULT_ERROR_RATE := 0.25

  datatype MethodConfig = MethodConfig(name: string, threshold: int)

  datatype Latency = Latency(thresholds: map<string, int>, methods: seq<MethodConfig>, threshold: int)

  datatype Errors = Errors(httpCodes: seq<string>, jsonRPCCodes: seq<string>, errorStrings: seq<string>, rate: real)

  datatype Routing = Routing(
    alwaysRoute: Option<bool>,
    errors: Option<Errors>,
    latency: Option<Latency>,
    detectionWindow: Option<int>,
    banWindow: Option<int>,
    maxBlocksBehind: int,
    isInitialized: bool,
    isEnabled: bool)

  /** `IsEnhancedRoutingControlDefined`. */
  predicate IsDefined(r: Routing) {
    r.errors.Some? || r.latency.Some? || r.detectionWindow.Some? || r.banWindow.Some? || r.alwaysRoute.Some?
  }

  // ---- Latency ----

  function Names(methods: seq<MethodConfig>): set<string> {
    set m | m in methods :: m.name
  }

  /** The last entry listed for a name. */
  function LastListed(methods: seq<MethodConfig>, name: string): MethodConfig
    requires name in Names(methods)
  {
    var last := methods[|methods| - 1];
    if last.name == name then last
    else
      assert exists m :: m in methods && m.name == name && m in methods[..|methods| - 1];
      LastListed(methods[..|methods| - 1], name)
  }

  /** The precedence: the entry's own threshold, the section's, the fallback's entry, the default. */
  function Effective(entry: MethodConfig, own: int, fallback: map<string, int>): int {
    if entry.threshold > 0 then entry.threshold
    else if own > 0 then own
    else Lookup(fallback, entry.name, DEFAULT_MAX_LATENCY)
  }

  function OwnEntries(methods: seq<MethodConfig>, own: int, fallback: map<string, int>): map<string, int> {
    map name | name in Names(methods) :: Effective(LastListed(methods, name), own, fallback)
  }

  /** Asking for the section's threshold also fills it in. */
  function FilledThreshold(methods: seq<MethodConfig>, own: int): int {
    if own <= 0 && exists m :: m in methods && m.threshold <= 0 then DEFAULT_MAX_LATENCY else own
  }

  function ResolveGlobalLatency(l: Latency): Latency {
    Latency(OwnEntries(l.methods, l.threshold, map[]), l.methods, FilledThreshold(l.methods, l.threshold))
  }

  function ResolveChainLatency(l: Latency, g: Latency): Latency {
    l.(thresholds := g.thresholds + OwnEntries(l.methods, l.threshold, g.thresholds))
  }

  // ---- Errors ----

  function MergedLists(e: Errors, g: Errors): Errors {
    Errors(
      SortAndRemoveDuplicates(e.httpCodes + g.httpCodes),
      SortAndRemoveDuplicates(e.jsonRPCCodes + g.jsonRPCCodes),
      SortAndRemoveDuplicates(e.errorStrings + g.errorStrings),
      e.rate)
  }

  /** The same error section with tidied lists. */
  function Tidy(e: Errors): Errors {
    Errors(
      SortAndRemoveDuplicates(e.httpCodes),
      SortAndRemoveDuplicates(e.jsonRPCCodes),
      SortAndRemoveDuplicates(e.errorStrings),
      e.rate)
  }

  function WithRate(e: Errors, rate: real): Errors {
    if e.rate == 0.0 then e.(rate := rate) else e
  }

  // ---- Whole sections ----

  function OrElse<T>(o: Option<T>, default: T): Option<T> {
    if o.Some? then o else Some(default)
  }

  function ResolveGlobal(r: Routing): Routing {
    Routing(
      OrElse(r.alwaysRoute, false),
      Some(WithRate(OrElse(r.errors, Errors([], [], [], 0.0)).value, DEFAULT_ERROR_RATE)),
      Some(ResolveGlobalLatency(OrElse(r.latency, Latency(map[], [], 0)).value)),
      OrElse(r.detectionWindow, DEFAULT_DETECTION_WINDOW),
      OrElse(r.banWindow, DEFAULT_BAN_WINDOW),
      r.maxBlocksBehind,
      true,
      true)
  }

  /** A global section that chains can be resolved against. */
  ghost predicate IsResolved(g: Routing) {
    && g.isInitialized && g.isEnabled
    && g.alwaysRoute.Some? && g.detectionWindow.Some? && g.banWindow.Some?
    && g.errors.Some? && g.errors.value.rate != 0.0
    && g.latency.Some? && ResolveGlobalLatency(g.latency.value) == g.latency.value
  }

  /** A chain takes copies of what it does not configure and merges what it does. */
  function ResolveChain(r: Routing, g: Routing): Routing
    requires g.errors.Some? && g.latency.Some?
  {
    Routing(
      if r.alwaysRoute.Some? then r.alwaysRoute else g.alwaysRoute,
      Some(if r.errors.Some? then MergedLists(WithRate(r.errors.value, g.errors.value.rate), g.errors.value)
           else Tidy(g.errors.value)),
      Some(if r.latency.Some? then ResolveChainLatency(r.latency.value, g.latency.value) else g.latency.value),
      if r.detectionWindow.Some? then r.detectionWindow else g.detectionWindow,
      if r.banWindow.Some? then r.banWindow else g.banWindow,
      r.maxBlocksBehind,
      true,
      true)
  }

  /** Whether the code treats the global section as configured. */
  predicate IsGlobalSpecified(g: Routing) {
    g.isInitialized || IsDefined(g)
  }

  /** A chain that will be resolved. */
  predicate IsTouched(r: Routing, g: Routing) {
    !r.isInitialized && (IsGlobalSpecified(g) || IsDefined(r))
  }

  /** Some chain before the n-th is resolved. */
  ghost predicate TouchedBefore(chains: seq<Routing>, g: Routing, n: nat)
    requires n <= |chains|
  {
    exists i :: 0 <= i < n && IsTouched(chains[i], g)
  }

  /** Some chain before the n-th is resolved and takes the global error section. */
  ghost predicate SharedBefore(chains: seq<Routing>, g: Routing, n: nat)
    requires n <= |chains|
  {
    exists i :: 0 <= i < n && IsTouched(chains[i], g) && chains[i].errors == None
  }

  /** The global section as chains are resolved against it. */
  function Fallback(g: Routing): Routing {
    if g.isInitialized then g else ResolveGlobal(g)
  }

  function WithTidyErrors(g: Routing): Routing
    requires g.errors.Some?
  {
    g.(errors := Some(Tidy(g.errors.value)))
  }

  /** The global section after `Config.setDefaults` has come to the n-th chain: initialized if it is
      configured or some chain needed it, its lists tidied if some chain took them. */
  ghost function ResolvedGlobal(g: Routing, chains: seq<Routing>, n: nat): Routing
    requires g.isInitialized ==> IsResolved(g)
    requires n <= |chains|
  {
    if !IsGlobalSpecified(g) && !TouchedBefore(chains, g, n) then g
    else if SharedBefore(chains, g, n) then WithTidyErrors(Fallback(g))
    else Fallback(g)
  }

  /** One chain after `Config.setDefaults`: a function of that chain and of the initial global
      section only, whatever the other chains are and wherever it stands among them. */
  function ResolvedChain(r: Routing, g: Routing): Routing
    requires g.isInitialized ==> IsResolved(g)
  {
    if IsTouched(r, g) then ResolveChain(r, Fallback(g)) else r
  }

  // ---- Properties of the resolver ----

  lemma {:induction false} LastListedMeaning(methods: seq<MethodConfig>, name: string, i: int)
    requires 0 <= i < |methods| && methods[i].name == name
    requires forall j | i < j < |methods| :: methods[j].name != name
    ensures name in Names(methods) && LastListed(methods, name) == methods[i]
  {
    assert methods[i] in methods;
    if i < |methods| - 1 {
      LastListedMeaning(methods[..|methods| - 1], name, i);
    }
  }

  lemma {:induction false} LastListedIsListed(methods: seq<MethodConfig>, name: string)
    requires name in Names(methods)
    ensures LastListed(methods, name) in methods && LastListed(methods, name).name == name
  {
    if methods[|methods| - 1].name != name {
      assert exists m :: m in methods && m.name == name && m in methods[..|methods| - 1];
      LastListedIsListed(methods[..|methods| - 1], name);
    }
  }

  lemma OwnEntriesOneMore(methods: seq<MethodConfig>, m: MethodConfig, own: int, fallback: map<string, int>)
    ensures OwnEntries(methods + [m], own, fallback)
      == OwnEntries(methods, own, fallback)[m.name := Effective(m, own, fallback)]
  {
    var all := methods + [m];
    assert all[..|methods|] == methods;
    assert Names(all) == Names(methods) + {m.name} by {
      assert m in all;
      assert forall w :: w in all <==> w in methods || w == m;
    }
    var a := OwnEntries(all, own, fallback);
    var b := OwnEntries(methods, own, fallback)[m.name := Effective(m, own, fallback)];
    assert a.Keys == b.Keys;
    forall name | name in a ensures a[name] == b[name] {
      assert LastListed(all, name) == if name == m.name then m else LastListed(methods, name);
    }
  }

  /** The section's threshold matters to an entry only if the filling in has settled it. */
  lemma OwnEntriesAfterFilling(methods: seq<MethodConfig>, own: int)
    ensures OwnEntries(methods, FilledThreshold(methods, own), map[]) == OwnEntries(methods, own, map[])
  {
    forall name | name in Names(methods)
      ensures Effective(LastListed(methods, name), FilledThreshold(methods, own), map[])
        == Effective(LastListed(methods, name), own, map[])
    {
      LastListedIsListed(methods, name);
    }
  }

  /** Resolving the global latency section again changes nothing. */
  lemma ResolveGlobalLatencyIsIdempotent(l: Latency)
    ensures ResolveGlobalLatency(ResolveGlobalLatency(l)) == ResolveGlobalLatency(l)
  {
    OwnEntriesAfterFilling(l.methods, l.threshold);
  }

  lemma ResolveGlobalIsResolved(g: Routing)
    ensures IsResolved(ResolveGlobal(g))
  {
    ResolveGlobalLatencyIsIdempotent(OrElse(g.latency, Latency(map[], [], 0)).value);
  }

  ghost predicate AllPositive(m: map<string, int>) {
    forall name | name in m :: m[name] > 0
  }

  lemma OwnEntriesPositive(methods: seq<MethodConfig>, own: int, fallback: map<string, int>)
    requires AllPositive(fallback)
    ensures AllPositive(OwnEntries(methods, own, fallback))
  {
  }

  /** Every threshold a chain ends up with is positive; there is one for exactly the methods the
      chain or the global section lists; and the precedence is the documented one. */
  lemma ChainThresholds(l: Latency, global: Latency, name: string)
    ensures var g := ResolveGlobalLatency(global); var t := ResolveChainLatency(l, g).thresholds;
      && AllPositive(t)
      && (name in t <==> name in Names(l.methods) || name in Names(global.methods))
      && (forall i | 0 <= i < |l.methods| && l.methods[i].name == name
                     && (forall j | i < j < |l.methods| :: l.methods[j].name != name) ::
            name in t && t[name] ==
              if l.methods[i].threshold > 0 then l.methods[i].threshold
              else if l.threshold > 0 then l.threshold
              else if name in g.thresholds then g.thresholds[name]
              else 10 * SECOND)
      && (name !in Names(l.methods) && name in Names(global.methods) ==> t[name] == g.thresholds[name])
  {
    var g := ResolveGlobalLatency(global);
    OwnEntriesPositive(global.methods, global.threshold, map[]);
    OwnEntriesPositive(l.methods, l.threshold, g.thresholds);
    forall i | 0 <= i < |l.methods| && l.methods[i].name == name
               && (forall j | i < j < |l.methods| :: l.methods[j].name != name)
      ensures name in Names(l.methods) && LastListed(l.methods, name) == l.methods[i]
    {
      LastListedMeaning(l.methods, name, i);
    }
  }

  /** The global section's own entries, which a chain without a latency section shares. */
  lemma GlobalThresholds(global: Latency, name: string)
    ensures var t := ResolveGlobalLatency(global).thresholds;
      && AllPositive(t)
      && (name in t <==> name in Names(global.methods))
      && (forall i | 0 <= i < |global.methods| && global.methods[i].name == name
                     && (forall j | i < j < |global.methods| :: global.methods[j].name != name) ::
            name in t && t[name] ==
              if global.methods[i].threshold > 0 then global.methods[i].threshold
              else if global.threshold > 0 then global.threshold
              else 10 * SECOND)
  {
    OwnEntriesPositive(global.methods, global.threshold, map[]);
    forall i | 0 <= i < |global.methods| && global.methods[i].name == name
               && (forall j | i < j < |global.methods| :: global.methods[j].name != name)
      ensures name in Names(global.methods) && LastListed(global.methods, name) == global.methods[i]
    {
      LastListedMeaning(global.methods, name, i);
    }
  }

  /** Where each option of a resolved chain comes from: the chain, else the global section, else the
      default; and it is what decides whether the chain is resolved at all. */
  lemma ChainOptions(r: Routing, g: Routing)
    requires !r.isInitialized && !g.isInitialized
    ensures var c := ResolvedChain(r, g);
      if r.errors == None && r.latency == None && r.detectionWindow == None && r.banWindow == None
         && r.alwaysRoute == None && g.errors == None && g.latency == None && g.detectionWindow == None
         && g.banWindow == None && g.alwaysRoute == None
      then c == r
      else
        && c.detectionWindow == Some(if r.detectionWindow.Some? then r.detectionWindow.value
                                     else if g.detectionWindow.Some? then g.detectionWindow.value else 60 * SECOND)
        && c.banWindow == Some(if r.banWindow.Some? then r.banWindow.value
                               else if g.banWindow.Some? then g.banWindow.value else 300 * SECOND)
        && c.alwaysRoute == Some(if r.alwaysRoute.Some? then r.alwaysRoute.value
                                 else g.alwaysRoute.Some? && g.alwaysRoute.value)
        && c.errors.Some?
        && c.errors.value.rate == (if r.errors.Some? && r.errors.value.rate != 0.0 then r.errors.value.rate
                                   else if g.errors.Some? && g.errors.value.rate != 0.0 then g.errors.value.rate
                                   else 0.25)
        && c.latency.Some?
        && (r.latency.Some? ==>
              && c.latency.value.methods == r.latency.value.methods
              && c.latency.value.threshold == r.latency.value.threshold)
        && c.maxBlocksBehind == r.maxBlocksBehind && c.isInitialized && c.isEnabled
  {
  }

  /** And each option of the global section, once it is initialized. */
  lemma GlobalOptions(g: Routing, chains: seq<Routing>, n: nat)
    requires !g.isInitialized && n <= |chains|
    ensures var c := ResolvedGlobal(g, chains, n);
      if !c.isInitialized then c == g
      else
        && c.detectionWindow == Some(if g.detectionWindow.Some? then g.detectionWindow.value else 60 * SECOND)
        && c.banWindow == Some(if g.banWindow.Some? then g.banWindow.value else 300 * SECOND)
        && c.alwaysRoute == Some(g.alwaysRoute.Some? && g.alwaysRoute.value)
        && c.errors.Some?
        && c.errors.value.rate == (if g.errors.Some? && g.errors.value.rate != 0.0 then g.errors.value.rate else 0.25)
        && (g.errors.Some? ==>
              && SameElements(c.errors.value.httpCodes, g.errors.value.httpCodes)
              && SameElements(c.errors.value.jsonRPCCodes, g.errors.value.jsonRPCCodes)
              && SameElements(c.errors.value.errorStrings, g.errors.value.errorStrings))
        && c.latency.Some? && c.maxBlocksBehind == g.maxBlocksBehind && c.isEnabled
        && (g.latency.Some? ==>
              && c.latency.value.methods == g.latency.value.methods
              && c.latency.value.threshold ==
                   if g.latency.value.threshold <= 0 && exists m :: m in g.latency.value.methods && m.threshold <= 0
                   then 10 * SECOND else g.latency.value.threshold)
  {
    var e := OrElse(g.errors, Errors([], [], [], 0.0)).value;
    SortAndRemoveDuplicatesMeaning(e.httpCodes);
    SortAndRemoveDuplicatesMeaning(e.jsonRPCCodes);
    SortAndRemoveDuplicatesMeaning(e.errorStrings);
  }

  ghost predicate SameElements(a: seq<string>, b: seq<string>) {
    forall x :: x in a <==> x in b
  }

  /** The section threshold, which the latency check uses for unlisted methods, is positive exactly
      when it was configured, or was filled in on the way: that never happens to a chain's own. */
  lemma SectionThresholdPositiveIff(r: Routing, g: Routing)
    requires !g.isInitialized
    ensures var t := ResolveChain(r, ResolveGlobal(g)).latency.value.threshold;
      t > 0 <==>
        if r.latency.Some? then r.latency.value.threshold > 0
        else g.latency.Some? && (g.latency.value.threshold > 0
               || exists m :: m in g.latency.value.methods && m.threshold <= 0)
  {
  }

  /** Tidying the global lists first makes no difference to any chain. */
  lemma TidyGlobalResolvesAlike(r: Routing, g: Routing)
    requires g.errors.Some? && g.latency.Some?
    ensures ResolveChain(r, WithTidyErrors(g)) == ResolveChain(r, g)
  {
    var e := g.errors.value;
    TidyAppends([], e.httpCodes);
    TidyAppends([], e.jsonRPCCodes);
    TidyAppends([], e.errorStrings);
    if r.errors.Some? {
      TidyAppends(r.errors.value.httpCodes, e.httpCodes);
      TidyAppends(r.errors.value.jsonRPCCodes, e.jsonRPCCodes);
      TidyAppends(r.errors.value.errorStrings, e.errorStrings);
    }
  }

  lemma TidyAppends(own: seq<string>, global: seq<string>)
    ensures SortAndRemoveDuplicates(own + SortAndRemoveDuplicates(global)) == SortAndRemoveDuplicates(own + global)
    ensures SortAndRemoveDuplicates(SortAndRemoveDuplicates(global)) == SortAndRemoveDuplicates(global)
  {
    SortAndRemoveDuplicatesMeaning(global);
    OnlyElementsMatter(own + SortAndRemoveDuplicates(global), own + global);
    OnlyElementsMatter(SortAndRemoveDuplicates(global), global);
  }

  /** Merging a section with itself, as sharing makes the code do, only tidies its lists; doing
      it again changes nothing. */
  lemma SelfMergeTidies(e: Errors)
    ensures MergedLists(e, e) == Tidy(e)
    ensures Tidy(Tidy(e)) == Tidy(e)
  {
    OnlyElementsMatter(e.httpCodes + e.httpCodes, e.httpCodes);
    OnlyElementsMatter(e.jsonRPCCodes + e.jsonRPCCodes, e.jsonRPCCodes);
    OnlyElementsMatter(e.errorStrings + e.errorStrings, e.errorStrings);
    TidyAppends([], e.httpCodes);
    TidyAppends([], e.jsonRPCCodes);
    TidyAppends([], e.errorStrings);
  }

  // ---- Doing it twice ----

  function ResolvedChains(chains: seq<Routing>, g: Routing): seq<Routing>
    requires g.isInitialized ==> IsResolved(g)
  {
    seq(|chains|, i requires 0 <= i < |chains| => ResolvedChain(chains[i], g))
  }

  /** Once is enough: the global section is configured, or every chain that is still to be resolved
      configures something, or none does. */
  ghost predicate OnceIsEnough(g: Routing, chains: seq<Routing>) {
    || IsGlobalSpecified(g)
    || (forall i | 0 <= i < |chains| && !chains[i].isInitialized :: IsDefined(chains[i]))
    || (forall i | 0 <= i < |chains| && !chains[i].isInitialized :: !IsDefined(chains[i]))
  }

  lemma ResolvedGlobalIsResolved(g: Routing, chains: seq<Routing>, n: nat)
    requires g.isInitialized ==> IsResolved(g)
    requires n <= |chains|
    ensures var g' := ResolvedGlobal(g, chains, n);
      && (g'.isInitialized ==> IsResolved(g'))
      && (g'.isInitialized <==> IsGlobalSpecified(g) || TouchedBefore(chains, g, n))
      && (!g'.isInitialized ==> g' == g)
  {
    ResolveGlobalIsResolved(g);
  }

  /** Setting defaults a second time changes nothing exactly when the first time has left no chain
      behind: otherwise it has initialized the global section for the sake of some chain, and the
      second time takes that for a configured one and resolves the remaining chains too. */
  lemma SecondTimeChangesNothingIff(g: Routing, chains: seq<Routing>)
    requires g.isInitialized ==> IsResolved(g)
    ensures var g', chains' := ResolvedGlobal(g, chains, |chains|), ResolvedChains(chains, g);
      && (g'.isInitialized ==> IsResolved(g'))
      && (ResolvedGlobal(g', chains', |chains|) == g' && ResolvedChains(chains', g') == chains'
          <==> OnceIsEnough(g, chains))
  {
    var n := |chains|;
    ResolvedGlobalIsResolved(g, chains, n);
    var g', chains' := ResolvedGlobal(g, chains, n), ResolvedChains(chains, g);
    if OnceIsEnough(g, chains) {
      forall i | 0 <= i < n ensures !IsTouched(chains'[i], g') {
        assert IsTouched(chains[i], g) ==> TouchedBefore(chains, g, n);
        assert !IsTouched(chains[i], g) ==> chains'[i] == chains[i];
        if k :| 0 <= k < n && IsTouched(chains[k], g) {
          assert !chains[k].isInitialized && (IsGlobalSpecified(g) || IsDefined(chains[k]));
        }
      }
      assert ResolvedChains(chains', g') == chains';
      assert !TouchedBefore(chains', g', n) && !SharedBefore(chains', g', n);
    } else {
      var i :| 0 <= i < n && !chains[i].isInitialized && IsDefined(chains[i]);
      var j :| 0 <= j < n && !chains[j].isInitialized && !IsDefined(chains[j]);
      assert IsTouched(chains[i], g);
      assert chains'[j] == chains[j] && ResolvedChains(chains', g')[j].isInitialized;
    }
  }
}
