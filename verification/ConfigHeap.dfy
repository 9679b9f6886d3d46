/** Configuration resolution as the code does it: sections that are missing in a chain become
    pointers to the global section, which is then re-initialized and merged with itself. */
module ConfigHeap {
  import opened Wrappers
  import opened StringLists
  import opened ConfigSpec

  /** Own entries, and those taken from the global section where there is none. */
  ghost function Merged(own: map<string, int>, global: map<string, int>, taken: set<string>): map<string, int> {
    (map name | name in global && name in taken :: global[name]) + own
  }

  lemma MergedOneMore(own: map<string, int>, global: map<string, int>, taken: set<string>, name: string)
    requires name in global && name !in taken
    ensures var m := Merged(own, global, taken);
      Merged(own, global, taken + {name}) == if name in m then m else m[name := global[name]]
  {
  }

  lemma MergedAll(own: map<string, int>, global: map<string, int>, taken: set<string>)
    requires global.Keys <= taken
    ensures Merged(own, global, taken) == global + own
  {
    assert (map name | name in global && name in taken :: global[name]) == global;
  }

  class LatencyConfig {
    var methodLatencyThresholds: map<string, int>
    var methods: seq<MethodConfig>
    var threshold: int

    constructor (methods: seq<MethodConfig>, threshold: int)
      ensures Value() == Latency(map[], methods, threshold)
    {
      this.methodLatencyThresholds := map[];
      this.methods := methods;
      this.threshold := threshold;
    }

    ghost function Value(): Latency
      reads this
    {
      Latency(methodLatencyThresholds, methods, threshold)
    }

    /** Existing entries win; works on the receiver itself too. */
    method Merge(globalConfig: LatencyConfig?)
      modifies this`methodLatencyThresholds
      ensures globalConfig == null ==> unchanged(this)
      ensures globalConfig != null ==>
        methodLatencyThresholds == old(globalConfig.methodLatencyThresholds) + old(methodLatencyThresholds)
    {
      if globalConfig == null {
        return;
      }
      ghost var own := methodLatencyThresholds;
      var global := globalConfig.methodLatencyThresholds;
      var left := global.Keys;
      ghost var taken: set<string> := {};
      assert Merged(own, global, {}) == own;
      while left != {}
        invariant left == global.Keys - taken && taken <= global.Keys
        invariant methodLatencyThresholds == Merged(own, global, taken)
        decreases |left|
      {
        var name :| name in left;
        MergedOneMore(own, global, taken, name);
        if name !in methodLatencyThresholds {
          methodLatencyThresholds := methodLatencyThresholds[name := global[name]];
        }
        left := left - {name};
        taken := taken + {name};
      }
      MergedAll(own, global, taken);
    }

    /** Reading the section's threshold; a missing one is filled in on the way, in the global section
        too. */
    method GetLatencyThreshold(globalConfig: LatencyConfig?) returns (t: int)
      modifies if threshold <= 0 then {this, globalConfig} else {}
      ensures old(threshold) > 0 ==> t == old(threshold)
      ensures old(threshold) <= 0 ==> threshold == t
      ensures old(threshold) <= 0 && globalConfig == null ==> t == DEFAULT_MAX_LATENCY
      ensures old(threshold) <= 0 && globalConfig != null ==>
        t == if old(globalConfig.threshold) > 0 then old(globalConfig.threshold) else DEFAULT_MAX_LATENCY
      ensures Value() == old(Value()).(threshold := threshold)
      ensures globalConfig != null ==>
        globalConfig.Value() == old(globalConfig.Value()).(
          threshold := if old(threshold) <= 0 && old(globalConfig.threshold) <= 0 then DEFAULT_MAX_LATENCY
                       else old(globalConfig.threshold))
      decreases globalConfig != null
    {
      if threshold <= 0 {
        if globalConfig != null {
          t := globalConfig.GetLatencyThreshold(null);
        } else {
          t := DEFAULT_MAX_LATENCY;
        }
        threshold := t;
        return;
      }
      t := threshold;
    }

    method GetLatencyThresholdForMethod(name: string) returns (t: int)
      ensures t == Lookup(methodLatencyThresholds, name, DEFAULT_MAX_LATENCY)
    {
      if name in methodLatencyThresholds {
        return methodLatencyThresholds[name];
      }
      t := DEFAULT_MAX_LATENCY;
    }

    /** The threshold of one listed method. */
    method EntryFor(m: MethodConfig, globalLatencyConfig: LatencyConfig?) returns (t: int)
      modifies this
      ensures Value() == old(Value()).(threshold := threshold)
      ensures globalLatencyConfig != null ==>
        && threshold == old(threshold)
        && t == Effective(m, threshold, old(globalLatencyConfig.methodLatencyThresholds))
      ensures globalLatencyConfig == null ==>
        && t == Effective(m, old(threshold), map[])
        && threshold == if old(threshold) <= 0 && m.threshold <= 0 then DEFAULT_MAX_LATENCY else old(threshold)
    {
      if m.threshold <= 0 {
        if threshold <= 0 && globalLatencyConfig != null {
          t := globalLatencyConfig.GetLatencyThresholdForMethod(m.name);
        } else {
          t := GetLatencyThreshold(globalLatencyConfig);
        }
      } else {
        t := m.threshold;
      }
    }

    /** With no global section: resolves on its own. Against another section: takes its entries as
        the fallback. Against itself, once resolved: ends as it began, although the map is emptied
        first. */
    method Initialize(globalLatencyConfig: LatencyConfig?)
      modifies this
      ensures globalLatencyConfig == null ==> Value() == ResolveGlobalLatency(old(Value()))
      ensures globalLatencyConfig != null && globalLatencyConfig != this ==>
        Value() == old(Value()).(
          thresholds := OwnEntries(methods, threshold, globalLatencyConfig.methodLatencyThresholds))
      ensures globalLatencyConfig == this && ResolveGlobalLatency(old(Value())) == old(Value()) ==>
        Value() == old(Value())
    {
      methodLatencyThresholds := map[];
      if |methods| == 0 {
        return;
      }
      ghost var own := threshold;
      ghost var fallback :=
        if globalLatencyConfig == null || globalLatencyConfig == this then map[]
        else globalLatencyConfig.methodLatencyThresholds;
      ghost var settled := globalLatencyConfig == this ==> FilledThreshold(methods, own) == own;
      for i := 0 to |methods|
        invariant methods == old(methods)
        invariant globalLatencyConfig != null ==> threshold == own
        invariant globalLatencyConfig == null ==> threshold == FilledThreshold(methods[..i], own)
        invariant settled ==> methodLatencyThresholds == OwnEntries(methods[..i], own, fallback)
      {
        var m := methods[i];
        var t := EntryFor(m, globalLatencyConfig);
        methodLatencyThresholds := methodLatencyThresholds[m.name := t];
        FillOneMore(methods[..i], m, own);
        OwnEntriesOneMore(methods[..i], m, own, fallback);
        assert methods[..i + 1] == methods[..i] + [m];
      }
      assert methods[..|methods|] == methods;
    }

    /** What a chain's resolution does to its latency section, shared or its own. */
    method ResolveAgainst(globalConfig: LatencyConfig)
      requires ResolveGlobalLatency(globalConfig.Value()) == globalConfig.Value()
      modifies this
      ensures this == globalConfig ==> Value() == old(Value())
      ensures this != globalConfig ==> Value() == ResolveChainLatency(old(Value()), globalConfig.Value())
    {
      Initialize(globalConfig);
      Merge(globalConfig);
    }
  }

  lemma FillOneMore(methods: seq<MethodConfig>, m: MethodConfig, own: int)
    ensures FilledThreshold(methods + [m], own)
      == if own <= 0 && m.threshold <= 0 then DEFAULT_MAX_LATENCY else FilledThreshold(methods, own)
  {
    assert m in methods + [m];
    assert forall w :: w in methods + [m] <==> w in methods || w == m;
  }

  class ErrorsConfig {
    var httpCodes: seq<string>
    var jsonRPCCodes: seq<string>
    var errorStrings: seq<string>
    var rate: real

    constructor (httpCodes: seq<string>, jsonRPCCodes: seq<string>, errorStrings: seq<string>, rate: real)
      ensures Value() == Errors(httpCodes, jsonRPCCodes, errorStrings, rate)
    {
      this.httpCodes := httpCodes;
      this.jsonRPCCodes := jsonRPCCodes;
      this.errorStrings := errorStrings;
      this.rate := rate;
    }

    ghost function Value(): Errors
      reads this
    {
      Errors(httpCodes, jsonRPCCodes, errorStrings, rate)
    }

    /** The receiver may be the global section itself. */
    method Merge(globalConfig: ErrorsConfig?)
      modifies this
      ensures globalConfig == null ==> unchanged(this)
      ensures globalConfig != null ==> Value() == MergedLists(old(Value()), old(globalConfig.Value()))
    {
      if globalConfig == null {
        return;
      }
      httpCodes := httpCodes + globalConfig.httpCodes;
      httpCodes := SortAndRemoveDuplicates(httpCodes);
      jsonRPCCodes := jsonRPCCodes + globalConfig.jsonRPCCodes;
      jsonRPCCodes := SortAndRemoveDuplicates(jsonRPCCodes);
      errorStrings := errorStrings + globalConfig.errorStrings;
      errorStrings := SortAndRemoveDuplicates(errorStrings);
    }

    method Initialize(globalErrorsConfig: ErrorsConfig?)
      modifies this`rate
      ensures Value() == WithRate(old(Value()),
        if globalErrorsConfig == null then DEFAULT_ERROR_RATE else old(globalErrorsConfig.rate))
    {
      if rate == 0.0 {
        if globalErrorsConfig == null {
          rate := DEFAULT_ERROR_RATE;
        } else {
          rate := globalErrorsConfig.rate;
        }
      }
    }

    /** What a chain's resolution does to its error section, shared or its own. */
    method ResolveAgainst(globalConfig: ErrorsConfig)
      requires globalConfig.rate != 0.0
      modifies this
      ensures this == globalConfig ==> Value() == Tidy(old(Value()))
      ensures this != globalConfig ==>
        Value() == MergedLists(WithRate(old(Value()), globalConfig.rate), globalConfig.Value())
    {
      SelfMergeTidies(globalConfig.Value());
      Initialize(globalConfig);
      Merge(globalConfig);
    }
  }

  class RoutingConfig {
    var alwaysRoute: Option<bool>
    var errors: ErrorsConfig?
    var latency: LatencyConfig?
    var detectionWindow: Option<int>
    var banWindow: Option<int>
    var maxBlocksBehind: int
    var isInitialized: bool
    var isEnabled: bool

    constructor (
        alwaysRoute: Option<bool>, errors: ErrorsConfig?, latency: LatencyConfig?,
        detectionWindow: Option<int>, banWindow: Option<int>, maxBlocksBehind: int)
      ensures this.errors == errors && this.latency == latency
      ensures this.alwaysRoute == alwaysRoute && this.detectionWindow == detectionWindow && this.banWindow == banWindow
      ensures this.maxBlocksBehind == maxBlocksBehind && !isInitialized && !isEnabled
    {
      this.alwaysRoute, this.errors, this.latency := alwaysRoute, errors, latency;
      this.detectionWindow, this.banWindow, this.maxBlocksBehind := detectionWindow, banWindow, maxBlocksBehind;
      isInitialized, isEnabled := false, false;
    }

    /** The section as a plain value: follows the pointers. */
    ghost function Value(): Routing
      reads this, errors, latency
    {
      Routing(
        alwaysRoute,
        if errors == null then None else Some(errors.Value()),
        if latency == null then None else Some(latency.Value()),
        detectionWindow,
        banWindow,
        maxBlocksBehind,
        isInitialized,
        isEnabled)
    }

    predicate IsEnhancedRoutingControlDefined()
      reads this
    {
      errors != null || latency != null || detectionWindow != None || banWindow != None || alwaysRoute != None
    }

    /** Shares no object with the other section. */
    ghost predicate DisjointFrom(other: RoutingConfig)
      reads this, other
    {
      && this != other
      && (errors == null || errors != other.errors)
      && (latency == null || latency != other.latency)
    }

    method FillMissing(detection: Option<int>, ban: Option<int>, always: Option<bool>)
      modifies this`detectionWindow, this`banWindow, this`alwaysRoute
      ensures detectionWindow == if old(detectionWindow) == None then detection else old(detectionWindow)
      ensures banWindow == if old(banWindow) == None then ban else old(banWindow)
      ensures alwaysRoute == if old(alwaysRoute) == None then always else old(alwaysRoute)
    {
      if detectionWindow == None {
        detectionWindow := detection;
      }
      if banWindow == None {
        banWindow := ban;
      }
      if alwaysRoute == None {
        alwaysRoute := always;
      }
    }

    /** The defaults of a section that has none above it: the global one. */
    method SetDefaultsAlone(force: bool) returns (enabled: bool)
      modifies this, errors, latency
      ensures enabled <==> old(isInitialized) || force || IsDefined(old(Value()))
      ensures old(isInitialized) || !enabled ==> Value() == old(Value())
      ensures !old(isInitialized) && enabled ==> Value() == ResolveGlobal(old(Value()))
      ensures errors == old(errors) || (old(errors) == null && fresh(errors))
      ensures latency == old(latency) || (old(latency) == null && fresh(latency))
    {
      if isInitialized {
        return true;
      }
      if !force && !IsEnhancedRoutingControlDefined() {
        return false;
      }
      FillMissing(Some(DEFAULT_DETECTION_WINDOW), Some(DEFAULT_BAN_WINDOW), Some(false));
      if latency == null {
        latency := new LatencyConfig([], 0);
      }
      latency.Initialize(null);
      if errors == null {
        errors := new ErrorsConfig([], [], [], 0.0);
      }
      errors.Initialize(null);
      isInitialized := true;
      isEnabled := true;
      enabled := true;
    }

    /** Takes what is missing from a global section that has it all, by pointer where the code
        does, and merges the rest with it. */
    method ResolveAgainst(globalConfig: RoutingConfig)
      requires DisjointFrom(globalConfig) && IsResolved(globalConfig.Value())
      modifies this, errors, latency, globalConfig.errors, globalConfig.latency
      ensures var g := old(globalConfig.Value());
        && Value() == ResolveChain(old(Value()), g)
        && globalConfig.Value() == if old(errors) == null then WithTidyErrors(g) else g
      ensures errors == if old(errors) == null then globalConfig.errors else old(errors)
      ensures latency == if old(latency) == null then globalConfig.latency else old(latency)
    {
      FillMissing(globalConfig.detectionWindow, globalConfig.banWindow, globalConfig.alwaysRoute);
      if latency == null {
        latency := globalConfig.latency;
      }
      latency.ResolveAgainst(globalConfig.latency);
      if errors == null {
        errors := globalConfig.errors;
      }
      errors.ResolveAgainst(globalConfig.errors);
      isInitialized := true;
      isEnabled := true;
    }

    /** The defaults of a chain's section, given the global one. A section that has them already may
        share with the global one. */
    method SetDefaults(globalConfig: RoutingConfig, force: bool) returns (enabled: bool)
      requires isInitialized || DisjointFrom(globalConfig)
      requires globalConfig.isInitialized ==> IsResolved(globalConfig.Value())
      modifies this, errors, latency, globalConfig, globalConfig.errors, globalConfig.latency
      ensures enabled <==>
        old(isInitialized) || force || IsDefined(old(Value())) || IsDefined(old(globalConfig.Value()))
      ensures old(isInitialized) || !enabled ==>
        && Value() == old(Value()) && errors == old(errors) && latency == old(latency)
        && globalConfig.Value() == old(globalConfig.Value())
      ensures !old(isInitialized) && enabled ==>
        var g := Fallback(old(globalConfig.Value()));
        && g.errors.Some? && g.latency.Some?
        && Value() == ResolveChain(old(Value()), g)
        && globalConfig.Value() == (if old(errors) == null then WithTidyErrors(g) else g)
        && errors == (if old(errors) == null then globalConfig.errors else old(errors))
        && latency == (if old(latency) == null then globalConfig.latency else old(latency))
      ensures globalConfig.errors == old(globalConfig.errors)
        || (old(globalConfig.errors) == null && fresh(globalConfig.errors))
      ensures globalConfig.latency == old(globalConfig.latency)
        || (old(globalConfig.latency) == null && fresh(globalConfig.latency))
    {
      if isInitialized {
        return true;
      }
      if !force && !IsEnhancedRoutingControlDefined() && !globalConfig.IsEnhancedRoutingControlDefined() {
        return false;
      }
      if !globalConfig.isInitialized {
        ResolveGlobalIsResolved(globalConfig.Value());
        var _ := globalConfig.SetDefaultsAlone(true);
      }
      ResolveAgainst(globalConfig);
      enabled := true;
    }
  }

  /** What resolving one chain does, if it is touched at all. */
  method SetChainDefaults(chain: RoutingConfig, global: RoutingConfig, isGlobalSpecified: bool)
    requires chain.isInitialized || chain.DisjointFrom(global)
    requires global.isInitialized ==> IsResolved(global.Value())
    requires isGlobalSpecified ==> IsDefined(global.Value())
    modifies chain, chain.errors, chain.latency, global, global.errors, global.latency
    ensures
      var r, g := old(chain.Value()), old(global.Value());
      if !r.isInitialized && (isGlobalSpecified || IsDefined(r)) then
        && IsResolved(Fallback(g))
        && chain.Value() == ResolveChain(r, Fallback(g))
        && chain.errors == (if r.errors == None then global.errors else old(chain.errors))
        && chain.latency == (if r.latency == None then global.latency else old(chain.latency))
        && global.Value() == if r.errors == None then WithTidyErrors(Fallback(g)) else Fallback(g)
      else
        && chain.Value() == r && chain.errors == old(chain.errors) && chain.latency == old(chain.latency)
        && global.Value() == g
    ensures global.errors == old(global.errors) || (old(global.errors) == null && fresh(global.errors))
    ensures global.latency == old(global.latency) || (old(global.latency) == null && fresh(global.latency))
  {
    if !isGlobalSpecified && !chain.IsEnhancedRoutingControlDefined() {
      return;
    }
    ResolveGlobalIsResolved(global.Value());
    var _ := chain.SetDefaults(global, false);
  }

  /** Chains cannot tell a tidied global section from an untidied one. */
  lemma EitherGlobalWillDo(r: Routing, g: Routing)
    requires g.isInitialized ==> IsResolved(g)
    ensures var g1 := Fallback(g);
      && IsResolved(g1) && IsResolved(WithTidyErrors(g1))
      && ResolveChain(r, WithTidyErrors(g1)) == ResolveChain(r, g1)
      && WithTidyErrors(WithTidyErrors(g1)) == WithTidyErrors(g1)
  {
    ResolveGlobalIsResolved(g);
    TidyGlobalResolvesAlike(r, Fallback(g));
    SelfMergeTidies(Fallback(g).errors.value);
  }

  /** A chain's section before the call: its value and its pointers, whether it will be resolved and
      to what. */
  datatype Initial = Initial(
    value: Routing, errors: ErrorsConfig?, latency: LatencyConfig?, touched: bool, target: Routing)

  ghost predicate IsAbout(s: Initial, g: Routing)
    requires g.isInitialized ==> IsResolved(g)
  {
    && (s.value.errors == None <==> s.errors == null)
    && (s.value.latency == None <==> s.latency == null)
    && s.touched == IsTouched(s.value, g)
    && s.target == ResolvedChain(s.value, g)
  }

  ghost function InitialOf(c: RoutingConfig, g: Routing): (s: Initial)
    requires g.isInitialized ==> IsResolved(g)
    reads c, c.errors, c.latency
    ensures IsAbout(s, g) && s.value == c.Value() && s.errors == c.errors && s.latency == c.latency
  {
    var r := c.Value();
    Initial(r, c.errors, c.latency, IsTouched(r, g), ResolvedChain(r, g))
  }

  ghost function InitialsOf(chains: seq<RoutingConfig>, g: Routing): (init: seq<Initial>)
    requires g.isInitialized ==> IsResolved(g)
    reads chains, (set c | c in chains :: c.errors), (set c | c in chains :: c.latency)
    ensures |init| == |chains|
    ensures forall i | 0 <= i < |chains| :: init[i] == InitialOf(chains[i], g)
  {
    if chains == [] then []
    else InitialsOf(chains[..|chains| - 1], g) + [InitialOf(chains[|chains| - 1], g)]
  }

  function ValuesIn(init: seq<Initial>): seq<Routing> {
    seq(|init|, i requires 0 <= i < |init| => init[i].value)
  }

  /** The value of the global section after the first n chains. */
  ghost function GlobalAfter(init: seq<Initial>, g: Routing, n: nat): Routing
    requires g.isInitialized ==> IsResolved(g)
    requires n <= |init|
  {
    ResolvedGlobal(g, ValuesIn(init), n)
  }

  /** What the turn of one chain makes of the global section. */
  ghost predicate IsTurn(s: Initial, now: Routing, next: Routing) {
    && (now.isInitialized ==> IsResolved(now)) && IsResolved(Fallback(now))
    && next == (if !s.touched then now else if s.errors == null then WithTidyErrors(Fallback(now)) else Fallback(now))
    && (s.touched ==> ResolveChain(s.value, Fallback(now)) == s.target)
    && (!s.touched ==> s.value == s.target)
  }

  lemma GlobalAfterOneMore(init: seq<Initial>, g: Routing, n: nat)
    requires n < |init| && (g.isInitialized ==> IsResolved(g)) && IsAbout(init[n], g)
    ensures IsTurn(init[n], GlobalAfter(init, g, n), GlobalAfter(init, g, n + 1))
    ensures IsGlobalSpecified(g) ==> IsDefined(GlobalAfter(init, g, n))
  {
    var values := ValuesIn(init);
    assert values[n] == init[n].value;
    EitherGlobalWillDo(init[n].value, g);
    assert TouchedBefore(values, g, n + 1) <==> TouchedBefore(values, g, n) || init[n].touched;
    assert SharedBefore(values, g, n + 1) <==>
      SharedBefore(values, g, n) || (init[n].touched && init[n].errors == null);
    assert SharedBefore(values, g, n) ==> TouchedBefore(values, g, n);
  }

  /** The section shares the global error section, or will once its turn has come. */
  ghost predicate UsesGlobalErrors(s: Initial, errors: ErrorsConfig?, done: bool) {
    if s.errors == null then done && s.touched else s.errors == errors
  }

  ghost predicate UsesGlobalLatency(s: Initial, latency: LatencyConfig?, done: bool) {
    if s.latency == null then done && s.touched else s.latency == latency
  }

  /** What is shared with the global section before the call has been settled by an earlier one. */
  ghost predicate IsSettled(s: Initial, g: Routing, errors: ErrorsConfig?, latency: LatencyConfig?) {
    && (s.errors != null && s.errors == errors ==>
          s.value.isInitialized && g.isInitialized && g.errors.Some? && Tidy(g.errors.value) == g.errors.value)
    && (s.latency != null && s.latency == latency ==> s.value.isInitialized && g.isInitialized)
  }

  /** The turn of the n-th chain leaves alone what others share with the global section. */
  ghost predicate KeepsShared(
      init: seq<Initial>, n: nat, now: Routing, next: Routing, errors: ErrorsConfig?, latency: LatencyConfig?)
  {
    forall i | 0 <= i < |init| ::
      && (UsesGlobalErrors(init[i], errors, i < n) ==> now.errors == next.errors)
      && (UsesGlobalLatency(init[i], latency, i < n) ==> now.latency == next.latency)
  }

  lemma SharedStays(init: seq<Initial>, g: Routing, n: nat, errors: ErrorsConfig?, latency: LatencyConfig?)
    requires n < |init| && (g.isInitialized ==> IsResolved(g))
    requires forall i | 0 <= i < |init| :: IsAbout(init[i], g) && IsSettled(init[i], g, errors, latency)
    ensures KeepsShared(init, n, GlobalAfter(init, g, n), GlobalAfter(init, g, n + 1), errors, latency)
  {
    GlobalAfterOneMore(init, g, n);
    EitherGlobalWillDo(init[n].value, g);
    var values := ValuesIn(init);
    forall i | 0 <= i < |init|
      ensures UsesGlobalErrors(init[i], errors, i < n) ==>
        GlobalAfter(init, g, n).errors == GlobalAfter(init, g, n + 1).errors
      ensures UsesGlobalLatency(init[i], latency, i < n) ==>
        GlobalAfter(init, g, n).latency == GlobalAfter(init, g, n + 1).latency
    {
      assert values[i] == init[i].value;
      assert i < n && init[i].touched ==> TouchedBefore(values, g, n);
      assert i < n && init[i].touched && init[i].errors == null ==> SharedBefore(values, g, n);
    }
  }

  class Config {
    const global: RoutingConfig
    const chains: seq<RoutingConfig>

    constructor (global: RoutingConfig, chains: seq<RoutingConfig>)
      ensures this.global == global && this.chains == chains
    {
      this.global := global;
      this.chains := chains;
    }

    ghost predicate IsGlobalOk()
      reads global, global.errors, global.latency
    {
      global.isInitialized ==> IsResolved(global.Value())
    }

    /** No two sections are one object; and chains share error or latency sections only with the
        global one, which an earlier call has then settled. */
    ghost predicate Separate(init: seq<Initial>, g: Routing)
      requires |init| == |chains|
      reads global
    {
      && (forall i | 0 <= i < |chains| ::
            chains[i] != global && IsSettled(init[i], g, global.errors, global.latency))
      && (forall i, j | 0 <= i < |chains| && 0 <= j < |chains| && i != j ::
            && chains[i] != chains[j]
            && (init[i].errors != null && init[i].errors != global.errors ==> init[i].errors != init[j].errors)
            && (init[i].latency != null && init[i].latency != global.latency ==> init[i].latency != init[j].latency))
    }

    ghost function Initials(): seq<Initial>
      requires IsGlobalOk()
      reads global, global.errors, global.latency
      reads chains, (set c | c in chains :: c.errors), (set c | c in chains :: c.latency)
    {
      InitialsOf(chains, global.Value())
    }

    /** As the parser leaves a configuration, nothing shared and nothing initialized, or as this
        method leaves it. */
    ghost predicate IsReady()
      reads global, global.errors, global.latency
      reads chains, (set c | c in chains :: c.errors), (set c | c in chains :: c.latency)
    {
      IsGlobalOk() && Separate(Initials(), global.Value())
    }

    ghost function Values(): seq<Routing>
      requires IsGlobalOk()
      reads global, global.errors, global.latency
      reads chains, (set c | c in chains :: c.errors), (set c | c in chains :: c.latency)
    {
      ValuesIn(Initials())
    }

    /** A chain before its turn, or after it: then resolved and pointing where it should. */
    ghost predicate ChainIs(c: RoutingConfig, s: Initial, done: bool)
      reads c, c.errors, c.latency, global
    {
      && c.Value() == (if done then s.target else s.value)
      && c.errors == (if done && s.touched && s.errors == null then global.errors else s.errors)
      && c.latency == (if done && s.touched && s.latency == null then global.latency else s.latency)
    }

    /** What is known of a chain whose turn has come. */
    ghost predicate IsUp(c: RoutingConfig, s: Initial, isGlobalSpecified: bool)
      reads c, c.errors, c.latency, global
    {
      && c != global && (s.value.isInitialized || c.DisjointFrom(global))
      && s.touched == (!s.value.isInitialized && (isGlobalSpecified || IsDefined(s.value)))
      && (s.value.errors == None <==> s.errors == null)
      && (s.value.latency == None <==> s.latency == null)
      && ChainIs(c, s, false)
    }

    /** One chain and the global section, when its turn comes. */
    method ResolveThis(c: RoutingConfig, isGlobalSpecified: bool, ghost s: Initial, ghost next: Routing)
      requires IsUp(c, s, isGlobalSpecified) && IsTurn(s, global.Value(), next)
      requires isGlobalSpecified ==> IsDefined(global.Value())
      modifies c, c.errors, c.latency, global, global.errors, global.latency
      ensures global.Value() == next && ChainIs(c, s, true)
      ensures global.errors == old(global.errors) || (old(global.errors) == null && fresh(global.errors))
      ensures global.latency == old(global.latency) || (old(global.latency) == null && fresh(global.latency))
    {
      SetChainDefaults(c, global, isGlobalSpecified);
    }

    /** A chain whose own sections are not those of another. */
    ghost predicate IsApart(c: RoutingConfig, d: RoutingConfig)
      reads c, d, global
    {
      && c != d && c != global
      && (c.errors == null || c.errors == global.errors || c.errors != d.errors)
      && (c.latency == null || c.latency == global.latency || c.latency != d.latency)
    }

    /** The same, with what happens to the other chains: only what is shared can change. */
    method ResolveFramed(c: RoutingConfig, isGlobalSpecified: bool, ghost s: Initial, ghost next: Routing)
      requires IsUp(c, s, isGlobalSpecified) && IsTurn(s, global.Value(), next)
      requires isGlobalSpecified ==> IsDefined(global.Value())
      requires forall i | 0 <= i < |chains| && chains[i] != c :: IsApart(chains[i], c)
      modifies c, c.errors, c.latency, global, global.errors, global.latency
      ensures global.Value() == next && ChainIs(c, s, true)
      ensures global.errors == old(global.errors) || (old(global.errors) == null && fresh(global.errors))
      ensures global.latency == old(global.latency) || (old(global.latency) == null && fresh(global.latency))
      ensures forall i | 0 <= i < |chains| && chains[i] != c :: var d := chains[i];
        && unchanged(d)
        && (d.errors == null || d.errors == old(global.errors) || d.errors.Value() == old(d.errors.Value()))
        && (d.latency == null || d.latency == old(global.latency) || d.latency.Value() == old(d.latency.Value()))
    {
      ResolveThis(c, isGlobalSpecified, s, next);
    }

    lemma OthersAreApart(n: nat, init: seq<Initial>, g: Routing)
      requires n < |chains| == |init| && Separate(init, g)
      requires forall i | 0 <= i < |chains| :: ChainIs(chains[i], init[i], i < n)
      ensures forall i | 0 <= i < |chains| && i != n :: IsApart(chains[i], chains[n])
    {
      forall i | 0 <= i < |chains| && i != n ensures IsApart(chains[i], chains[n]) {
        assert ChainIs(chains[i], init[i], i < n) && ChainIs(chains[n], init[n], false);
      }
    }

    /** The turn of the n-th chain. */
    method ResolveNext(n: nat, isGlobalSpecified: bool, ghost init: seq<Initial>, ghost next: Routing)
      requires n < |chains| == |init|
      requires IsUp(chains[n], init[n], isGlobalSpecified) && IsTurn(init[n], global.Value(), next)
      requires isGlobalSpecified ==> IsDefined(global.Value())
      requires KeepsShared(init, n, global.Value(), next, global.errors, global.latency)
      requires forall i | 0 <= i < |chains| && i != n :: IsApart(chains[i], chains[n])
      requires forall i | 0 <= i < |chains| :: ChainIs(chains[i], init[i], i < n)
      modifies chains[n], chains[n].errors, chains[n].latency, global, global.errors, global.latency
      ensures global.Value() == next
      ensures forall i | 0 <= i < |chains| :: ChainIs(chains[i], init[i], i < n + 1)
      ensures global.errors == old(global.errors) || (old(global.errors) == null && fresh(global.errors))
      ensures global.latency == old(global.latency) || (old(global.latency) == null && fresh(global.latency))
    {
      ResolveFramed(chains[n], isGlobalSpecified, init[n], next);
      forall i | 0 <= i < |chains| && i != n ensures ChainIs(chains[i], init[i], i < n) {
        assert chains[i] in chains && old(ChainIs(chains[i], init[i], i < n));
      }
    }

    /** Everything the turn of the n-th chain relies on. */
    lemma ReadyForTurn(n: nat, isGlobalSpecified: bool, init: seq<Initial>, g: Routing)
      requires n < |chains| == |init| && Separate(init, g)
      requires (g.isInitialized ==> IsResolved(g)) && isGlobalSpecified == IsGlobalSpecified(g)
      requires forall i | 0 <= i < |chains| :: IsAbout(init[i], g)
      requires global.Value() == GlobalAfter(init, g, n)
      requires forall i | 0 <= i < |chains| :: ChainIs(chains[i], init[i], i < n)
      ensures IsUp(chains[n], init[n], isGlobalSpecified)
      ensures IsTurn(init[n], global.Value(), GlobalAfter(init, g, n + 1))
      ensures isGlobalSpecified ==> IsDefined(global.Value())
      ensures KeepsShared(init, n, global.Value(), GlobalAfter(init, g, n + 1), global.errors, global.latency)
      ensures forall i | 0 <= i < |chains| && i != n :: IsApart(chains[i], chains[n])
    {
      assert ChainIs(chains[n], init[n], false) && IsSettled(init[n], g, global.errors, global.latency);
      GlobalAfterOneMore(init, g, n);
      SharedStays(init, g, n, global.errors, global.latency);
      OthersAreApart(n, init, g);
    }

    /** The turn of the n-th chain, from where the earlier ones have left things. */
    method ResolveTurn(n: nat, isGlobalSpecified: bool, ghost init: seq<Initial>, ghost g: Routing)
      requires n < |chains| == |init| && Separate(init, g)
      requires (g.isInitialized ==> IsResolved(g)) && isGlobalSpecified == IsGlobalSpecified(g)
      requires forall i | 0 <= i < |chains| :: IsAbout(init[i], g)
      requires global.Value() == GlobalAfter(init, g, n)
      requires forall i | 0 <= i < |chains| :: ChainIs(chains[i], init[i], i < n)
      modifies chains[n], chains[n].errors, chains[n].latency, global, global.errors, global.latency
      ensures Separate(init, g)
      ensures global.Value() == GlobalAfter(init, g, n + 1)
      ensures forall i | 0 <= i < |chains| :: ChainIs(chains[i], init[i], i < n + 1)
      ensures global.errors == old(global.errors) || (old(global.errors) == null && fresh(global.errors))
      ensures global.latency == old(global.latency) || (old(global.latency) == null && fresh(global.latency))
    {
      ReadyForTurn(n, isGlobalSpecified, init, g);
      ResolveNext(n, isGlobalSpecified, init, GlobalAfter(init, g, n + 1));
    }

    /** The loop over the chains. */
    method ResolveChains(isGlobalSpecified: bool, ghost init: seq<Initial>, ghost g: Routing)
      requires |init| == |chains| && Separate(init, g)
      requires (g.isInitialized ==> IsResolved(g)) && isGlobalSpecified == IsGlobalSpecified(g)
      requires forall i | 0 <= i < |chains| :: IsAbout(init[i], g)
      requires global.Value() == GlobalAfter(init, g, 0)
      requires forall i | 0 <= i < |chains| :: ChainIs(chains[i], init[i], false)
      modifies global, global.errors, global.latency
      modifies chains, (set c | c in chains :: c.errors), (set c | c in chains :: c.latency)
      ensures Separate(init, g)
      ensures global.Value() == GlobalAfter(init, g, |chains|)
      ensures forall i | 0 <= i < |chains| :: ChainIs(chains[i], init[i], true)
      ensures global.errors == old(global.errors) || (old(global.errors) == null && fresh(global.errors))
      ensures global.latency == old(global.latency) || (old(global.latency) == null && fresh(global.latency))
    {
      for n := 0 to |chains|
        invariant Separate(init, g)
        invariant global.Value() == GlobalAfter(init, g, n)
        invariant forall i | 0 <= i < |chains| :: ChainIs(chains[i], init[i], i < n)
        invariant global.errors == old(global.errors) || (old(global.errors) == null && fresh(global.errors))
        invariant global.latency == old(global.latency) || (old(global.latency) == null && fresh(global.latency))
      {
        assert ChainIs(chains[n], init[n], false) && old(ChainIs(chains[n], init[n], false));
        ResolveTurn(n, isGlobalSpecified, init, g);
      }
    }

    /** What is shared after the call has been settled by it. */
    lemma SettledAfter(init: seq<Initial>, g: Routing, i: nat)
      requires i < |chains| == |init| && (g.isInitialized ==> IsResolved(g))
      requires IsAbout(init[i], g) && IsSettled(init[i], g, global.errors, global.latency)
      requires global.Value() == GlobalAfter(init, g, |init|) && ChainIs(chains[i], init[i], true)
      ensures IsGlobalOk()
      ensures IsSettled(InitialOf(chains[i], global.Value()), global.Value(), global.errors, global.latency)
    {
      var values := ValuesIn(init);
      ResolvedGlobalIsResolved(g, values, |values|);
      EitherGlobalWillDo(values[i], g);
      assert values[i] == init[i].value;
      assert init[i].touched ==> TouchedBefore(values, g, |values|);
      assert init[i].touched && init[i].errors == null ==> SharedBefore(values, g, |values|);
    }

    lemma ReadyAfter(init: seq<Initial>, g: Routing)
      requires |init| == |chains| && Separate(init, g) && (g.isInitialized ==> IsResolved(g))
      requires forall i | 0 <= i < |chains| :: IsAbout(init[i], g)
      requires global.Value() == GlobalAfter(init, g, |chains|)
      requires forall i | 0 <= i < |chains| :: ChainIs(chains[i], init[i], true)
      ensures IsReady() && Values() == ResolvedChains(ValuesIn(init), g)
    {
      ResolvedGlobalIsResolved(g, ValuesIn(init), |init|);
      forall i | 0 <= i < |chains| ensures IsSettled(Initials()[i], global.Value(), global.errors, global.latency) {
        assert ChainIs(chains[i], init[i], true);
        SettledAfter(init, g, i);
      }
      forall i, j | 0 <= i < |chains| && 0 <= j < |chains| && i != j
        ensures chains[i].errors != null && chains[i].errors != global.errors ==> chains[i].errors != chains[j].errors
        ensures chains[i].latency != null && chains[i].latency != global.latency ==>
          chains[i].latency != chains[j].latency
      {
        assert ChainIs(chains[i], init[i], true) && ChainIs(chains[j], init[j], true);
      }
      forall i | 0 <= i < |chains| ensures Values()[i] == ResolvedChain(init[i].value, g) {
        assert ChainIs(chains[i], init[i], true);
      }
    }

    /** From a parsed configuration, or one that has been through this before. Every chain ends up
        with exactly what the copying resolver gives it, in spite of the sharing and whatever the
        order of the chains; the global section keeps its latency map, thresholds, rate and windows,
        and has its error lists tidied if some chain takes them. */
    method SetDefaults()
      requires IsReady()
      modifies global, global.errors, global.latency
      modifies chains, (set c | c in chains :: c.errors), (set c | c in chains :: c.latency)
      ensures IsReady()
      ensures Values() == ResolvedChains(old(Values()), old(global.Value()))
      ensures global.Value() == ResolvedGlobal(old(global.Value()), old(Values()), |chains|)
      ensures global.errors == old(global.errors) || (old(global.errors) == null && fresh(global.errors))
      ensures global.latency == old(global.latency) || (old(global.latency) == null && fresh(global.latency))
      ensures forall i | 0 <= i < |chains| ::
        && (chains[i].errors == old(chains[i].errors) || chains[i].errors == global.errors)
        && (chains[i].latency == old(chains[i].latency) || chains[i].latency == global.latency)
    {
      ghost var g, init := global.Value(), Initials();
      var isGlobalSpecified := global.SetDefaultsAlone(false);
      assert !TouchedBefore(ValuesIn(init), g, 0) && !SharedBefore(ValuesIn(init), g, 0);
      forall i | 0 <= i < |chains| ensures ChainIs(chains[i], init[i], false) {
        assert IsSettled(init[i], g, old(global.errors), old(global.latency)) && unchanged(chains[i]);
        assert chains[i].errors == null || chains[i].errors == global.errors || unchanged(chains[i].errors);
        assert chains[i].latency == null || chains[i].latency == global.latency || unchanged(chains[i].latency);
      }
      ResolveChains(isGlobalSpecified, init, g);
      ReadyAfter(init, g);
      forall i | 0 <= i < |chains|
        ensures chains[i].errors == old(chains[i].errors) || chains[i].errors == global.errors
        ensures chains[i].latency == old(chains[i].latency) || chains[i].latency == global.latency
      {
        assert ChainIs(chains[i], init[i], true);
      }
    }

    /** Setting defaults twice, on the real sections with all their sharing: the second call changes
        no value exactly when the first has left no chain behind. */
    method SetDefaultsTwice() returns (ghost once: seq<Routing>, ghost onceGlobal: Routing)
      requires IsReady()
      modifies global, global.errors, global.latency
      modifies chains, (set c | c in chains :: c.errors), (set c | c in chains :: c.latency)
      ensures IsReady()
      ensures once == ResolvedChains(old(Values()), old(global.Value()))
      ensures onceGlobal == ResolvedGlobal(old(global.Value()), old(Values()), |chains|)
      ensures onceGlobal.isInitialized ==> IsResolved(onceGlobal)
      ensures Values() == ResolvedChains(once, onceGlobal)
      ensures (Values() == once && global.Value() == onceGlobal) <==> OnceIsEnough(old(global.Value()), old(Values()))
    {
      ghost var g, values := global.Value(), Values();
      SetDefaults();
      once, onceGlobal := Values(), global.Value();
      SetDefaults();
      SecondTimeChangesNothingIff(g, values);
    }

    /** As the parser leaves a configuration: nothing is shared and nothing is initialized. */
    ghost predicate IsParsed()
      reads global, chains
    {
      && !global.isInitialized
      && (forall i | 0 <= i < |chains| :: !chains[i].isInitialized && chains[i].DisjointFrom(global))
      && (forall i, j | 0 <= i < |chains| && 0 <= j < |chains| && i != j :: chains[i].DisjointFrom(chains[j]))
    }

    lemma ParsedIsReady()
      requires IsParsed()
      ensures IsReady()
    {
      assert forall i | 0 <= i < |chains| :: Initials()[i] == InitialOf(chains[i], global.Value());
      assert forall i | 0 <= i < |chains| :: chains[i].DisjointFrom(global);
      assert forall i, j | 0 <= i < |chains| && 0 <= j < |chains| && i != j :: chains[i].DisjointFrom(chains[j]);
    }
  }

  const NOTHING := Routing(None, None, None, None, None, 0, false, false)

  /** The values that show it: no global routing options, one chain with an option, one without. The
      first time leaves the second chain alone, the second time resolves it. */
  lemma LeftOutIsResolvedLater()
    ensures var chains := [NOTHING.(alwaysRoute := Some(true)), NOTHING];
      var g', chains' := ResolvedGlobal(NOTHING, chains, 2), ResolvedChains(chains, NOTHING);
      && !OnceIsEnough(NOTHING, chains)
      && (g'.isInitialized ==> IsResolved(g'))
      && chains'[1] == NOTHING && ResolvedChains(chains', g')[1].isInitialized
  {
    var chains := [NOTHING.(alwaysRoute := Some(true)), NOTHING];
    assert IsDefined(chains[0]) && !IsDefined(chains[1]) && IsTouched(chains[0], NOTHING);
    assert TouchedBefore(chains, NOTHING, 2);
    ResolvedGlobalIsResolved(NOTHING, chains, 2);
  }

  /** Such a configuration, as the parser leaves it. */
  method NewLeftOut() returns (config: Config)
    ensures config.IsReady() && config.global.Value() == NOTHING
    ensures config.Values() == [NOTHING.(alwaysRoute := Some(true)), NOTHING]
  {
    var global := new RoutingConfig(None, null, null, None, None, 0);
    var plain := new RoutingConfig(None, null, null, None, None, 0);
    var chosen := new RoutingConfig(Some(true), null, null, None, None, 0);
    config := new Config(global, [chosen, plain]);
    assert config.chains[0] == chosen && config.chains[1] == plain;
    config.ParsedIsReady();
    assert config.Values()[0] == chosen.Value() && config.Values()[1] == plain.Value();
  }

  /** And what becomes of it. */
  method LeftOutChain(config: Config) returns (ghost once: seq<Routing>)
    requires config.IsReady() && config.global.Value() == NOTHING
    requires config.Values() == [NOTHING.(alwaysRoute := Some(true)), NOTHING]
    modifies config.global, config.global.errors, config.global.latency
    modifies config.chains, (set c | c in config.chains :: c.errors), (set c | c in config.chains :: c.latency)
    ensures config.IsReady() && |once| == |config.Values()| == 2
    ensures !once[1].isInitialized && config.Values()[1].isInitialized
  {
    LeftOutIsResolvedLater();
    ghost var onceGlobal;
    once, onceGlobal := config.SetDefaultsTwice();
  }
}
