/** The health-check manager: goroutines that build the checks, then rounds of goroutines that run
    them, joined by wait groups. Once as an object whose goroutines take turns, once as the system
    of all their interleavings; the two cannot be told apart between rounds. */
module HealthManager {
  import opened Wrappers
  import opened Topology

  /** Which of a status's four checks are there. */
  datatype Checks = Checks(blockHeight: bool, peer: bool, error: bool, latency: bool)

  const NO_CHECKS := Checks(false, false, false, false)
  const ALL_CHECKS := Checks(true, true, true, true)

  datatype UpstreamStatus = UpstreamStatus(id: string, groupID: string, checks: Checks)

  function Complete(config: UpstreamConfig): UpstreamStatus {
    UpstreamStatus(config.id, config.groupID, ALL_CHECKS)
  }

  /** A complete status for every configured upstream, and for nothing else. */
  ghost predicate CoversExactly(statuses: map<string, UpstreamStatus>, configs: seq<UpstreamConfig>) {
    && (forall w | 0 <= w < |configs| :: configs[w].id in statuses && statuses[configs[w].id] == Complete(configs[w]))
    && forall id | id in statuses :: IsConfigured(configs, id)
  }

  ghost predicate IsConfigured(configs: seq<UpstreamConfig>, id: string) {
    exists w :: 0 <= w < |configs| && configs[w].id == id
  }

  /** There is only one such map. */
  lemma CoveringIsUnique(
      m1: map<string, UpstreamStatus>, m2: map<string, UpstreamStatus>, configs: seq<UpstreamConfig>)
    requires CoversExactly(m1, configs) && CoversExactly(m2, configs)
    ensures m1 == m2
  {
    assert forall id :: id in m1 ==> IsConfigured(configs, id) && id in m2 && m1[id] == m2[id];
    assert forall id :: id in m2 ==> IsConfigured(configs, id) && id in m1;
  }

  lemma CoverOneMore(m: map<string, UpstreamStatus>, configs: seq<UpstreamConfig>, i: nat)
    requires i < |configs| && DistinctUpstreams(configs) && CoversExactly(m, configs[..i])
    ensures CoversExactly(m[configs[i].id := Complete(configs[i])], configs[..i + 1])
  {
    assert configs[..i + 1] == configs[..i] + [configs[i]];
    forall id | id in m ensures IsConfigured(configs[..i + 1], id) {
      var w :| 0 <= w < i && configs[..i][w].id == id;
      assert configs[..i + 1][w].id == id;
    }
    assert configs[..i + 1][i].id == configs[i].id;
  }

  // ---- The manager as an object, its goroutines taking turns ----

  /** Task t of a round runs a check of upstream t / 2: its block-height check if t is even, its
      peer check if t is odd. `calls` counts the calls of `RunCheck`, `rounds` the completed rounds. */
  class HealthCheckManager {
    const configs: seq<UpstreamConfig>
    var upstreamIDToStatus: map<string, UpstreamStatus>
    var isInitialized: bool
    ghost var calls: seq<nat>
    ghost var rounds: nat

    constructor (configs: seq<UpstreamConfig>)
      ensures this.configs == configs && upstreamIDToStatus == map[] && !isInitialized
      ensures calls == seq(2 * |configs|, _ => 0) && rounds == 0
    {
      this.configs := configs;
      upstreamIDToStatus, isInitialized := map[], false;
      calls, rounds := seq(2 * |configs|, _ => 0), 0;
    }

    method InitializeChecks()
      requires DistinctUpstreams(configs) && upstreamIDToStatus == map[]
      modifies this`upstreamIDToStatus
      ensures CoversExactly(upstreamIDToStatus, configs)
    {
      for i := 0 to |configs|
        invariant CoversExactly(upstreamIDToStatus, configs[..i])
      {
        var config := configs[i];
        var built := NO_CHECKS.(blockHeight := true);
        built := built.(peer := true);
        built := built.(error := true);
        built := built.(latency := true);
        CoverOneMore(upstreamIDToStatus, configs, i);
        upstreamIDToStatus := upstreamIDToStatus[config.id := UpstreamStatus(config.id, config.groupID, built)];
      }
      assert configs[..|configs|] == configs;
    }

    /** One round. The look-ups of the statuses cannot fail. */
    method RunChecksOnce()
      requires CoversExactly(upstreamIDToStatus, configs) && |calls| == 2 * |configs|
      modifies this`calls, this`rounds, this`isInitialized
      ensures isInitialized && rounds == old(rounds) + 1
      ensures |calls| == 2 * |configs| && forall t | 0 <= t < |calls| :: calls[t] == old(calls[t]) + 1
    {
      for i := 0 to |configs|
        invariant |calls| == 2 * |configs| && rounds == old(rounds)
        invariant forall t | 0 <= t < |calls| :: calls[t] == old(calls[t]) + if t < 2 * i then 1 else 0
      {
        var status := upstreamIDToStatus[configs[i].id];
        if status.checks.blockHeight {
          calls := calls[2 * i := calls[2 * i] + 1];
        }
        if status.checks.peer {
          calls := calls[2 * i + 1 := calls[2 * i + 1] + 1];
        }
      }
      rounds := rounds + 1;
      isInitialized := true;
    }

    /** From the start until the ticker has fired the given number of times. */
    method StartHealthChecks(ticks: nat)
      requires DistinctUpstreams(configs) && upstreamIDToStatus == map[]
      requires calls == seq(2 * |configs|, _ => 0) && rounds == 0
      modifies this
      ensures isInitialized && rounds == ticks + 1
      ensures CoversExactly(upstreamIDToStatus, configs)
      ensures calls == seq(2 * |configs|, _ => ticks + 1)
    {
      InitializeChecks();
      RunChecksOnce();
      for n := 0 to ticks
        invariant isInitialized && rounds == n + 1
        invariant CoversExactly(upstreamIDToStatus, configs)
        invariant |calls| == 2 * |configs| && forall t | 0 <= t < |calls| :: calls[t] == n + 1
      {
        RunChecksOnce();
      }
    }
  }

  // ---- Every interleaving ----

  /** The goroutine that builds one upstream's checks: four inner goroutines, then the map write
      under the mutex. */
  datatype Worker =
    | Unspawned
    | Building(built: Checks)
    | Locked(built: Checks)
    | Stored
    | Finished

  datatype CheckKind = BlockHeight | Peer | ErrorRate | Latency

  /** One goroutine of a round. `Joined` is after its `wg.Done`. */
  datatype Runner = Absent | Launched | Running | Joined

  datatype Main = Spawning(next: nat) | AwaitingWorkers | Launching(next: nat) | AwaitingRound | Publishing | Ticking

  datatype System = System(
    configs: seq<UpstreamConfig>,
    main: Main,
    workers: seq<Worker>,
    mutex: Option<nat>,
    statuses: map<string, UpstreamStatus>,
    runners: seq<Runner>,
    calls: seq<nat>,
    rounds: nat,
    isInitialized: bool)

  datatype Step =
    | Spawn
    | AllSpawned
    | Build(worker: nat, kind: CheckKind)
    | Lock(worker: nat)
    | SetStatus(worker: nat)
    | Unlock(worker: nat)
    | WorkersJoined
    | Launch
    | AllLaunched
    | Call(task: nat)
    | Join(task: nat)
    | RoundJoined
    | Publish
    | Tick

  function Initial(configs: seq<UpstreamConfig>): System {
    System(configs, Spawning(0), seq(|configs|, _ => Unspawned), None, map[], seq(2 * |configs|, _ => Absent),
           seq(2 * |configs|, _ => 0), 0, false)
  }

  predicate Shaped(s: System) {
    |s.workers| == |s.configs| && |s.runners| == 2 * |s.configs| == |s.calls|
  }

  predicate Has(built: Checks, kind: CheckKind) {
    match kind
    case BlockHeight => built.blockHeight
    case Peer => built.peer
    case ErrorRate => built.error
    case Latency => built.latency
  }

  function With(built: Checks, kind: CheckKind): Checks {
    match kind
    case BlockHeight => built.(blockHeight := true)
    case Peer => built.(peer := true)
    case ErrorRate => built.(error := true)
    case Latency => built.(latency := true)
  }

  /** Launching is not guarded: `go` starts a goroutine whatever the others are doing. */
  predicate Enabled(s: System, step: Step)
    requires Shaped(s)
  {
    match step
    case Spawn => s.main.Spawning? && s.main.next < |s.configs|
    case AllSpawned => s.main.Spawning? && s.main.next >= |s.configs|
    case Build(w, kind) => w < |s.configs| && s.workers[w].Building? && !Has(s.workers[w].built, kind)
    case Lock(w) => w < |s.configs| && s.workers[w] == Building(ALL_CHECKS) && s.mutex == None
    case SetStatus(w) => w < |s.configs| && s.workers[w].Locked?
    case Unlock(w) => w < |s.configs| && s.workers[w].Stored?
    case WorkersJoined => s.main.AwaitingWorkers? && forall w | 0 <= w < |s.configs| :: s.workers[w].Finished?
    case Launch => s.main.Launching? && s.main.next < |s.runners|
    case AllLaunched => s.main.Launching? && s.main.next >= |s.runners|
    case Call(t) => t < |s.runners| && s.runners[t].Launched?
    case Join(t) => t < |s.runners| && s.runners[t].Running?
    case RoundJoined => s.main.AwaitingRound? && forall t | 0 <= t < |s.runners| :: s.runners[t].Joined?
    case Publish => s.main.Publishing?
    case Tick => s.main.Ticking?
  }

  function Do(s: System, step: Step): System
    requires Shaped(s) && Enabled(s, step)
  {
    match step
    case Spawn => s.(main := Spawning(s.main.next + 1), workers := s.workers[s.main.next := Building(NO_CHECKS)])
    case AllSpawned => s.(main := AwaitingWorkers)
    case Build(w, kind) => s.(workers := s.workers[w := Building(With(s.workers[w].built, kind))])
    case Lock(w) => s.(workers := s.workers[w := Locked(s.workers[w].built)], mutex := Some(w))
    case SetStatus(w) =>
      var c := s.configs[w];
      s.(workers := s.workers[w := Stored],
         statuses := s.statuses[c.id := UpstreamStatus(c.id, c.groupID, s.workers[w].built)])
    case Unlock(w) => s.(workers := s.workers[w := Finished], mutex := None)
    case WorkersJoined => s.(main := Launching(0))
    case Launch => s.(main := Launching(s.main.next + 1), runners := s.runners[s.main.next := Launched])
    case AllLaunched => s.(main := AwaitingRound)
    case Call(t) => s.(runners := s.runners[t := Running], calls := s.calls[t := s.calls[t] + 1])
    case Join(t) => s.(runners := s.runners[t := Joined])
    case RoundJoined =>
      s.(main := Publishing, runners := seq(|s.runners|, _ => Absent), rounds := s.rounds + 1)
    case Publish => s.(main := Ticking, isInitialized := true)
    case Tick => s.(main := Launching(0))
  }

  ghost predicate IsRun(configs: seq<UpstreamConfig>, states: seq<System>, steps: seq<Step>) {
    && |states| == |steps| + 1
    && states[0] == Initial(configs)
    && forall i | 0 <= i < |steps| ::
         Shaped(states[i]) && Enabled(states[i], steps[i]) && states[i + 1] == Do(states[i], steps[i])
  }

  /** The checks are being built. */
  predicate IsBuilding(s: System) {
    s.main.Spawning? || s.main.AwaitingWorkers?
  }

  ghost predicate WorkersOk(s: System)
    requires Shaped(s)
  {
    && (forall w | 0 <= w < |s.configs| ::
          && (s.main.Spawning? ==> (s.workers[w].Unspawned? <==> s.main.next <= w))
          && (s.main.AwaitingWorkers? ==> !s.workers[w].Unspawned?)
          && (s.workers[w].Locked? ==> s.workers[w].built == ALL_CHECKS)
          && (s.mutex == Some(w) <==> s.workers[w].Locked? || s.workers[w].Stored?)
          && (s.workers[w].Stored? || s.workers[w].Finished? ==>
                s.configs[w].id in s.statuses && s.statuses[s.configs[w].id] == Complete(s.configs[w]))
          && (!IsBuilding(s) ==> s.workers[w].Finished?))
    && (s.main.Spawning? ==> s.main.next <= |s.configs|)
    && (s.mutex.Some? ==> s.mutex.value < |s.configs|)
    && forall id | id in s.statuses :: IsConfigured(s.configs, id)
  }

  ghost predicate RunnersOk(s: System)
    requires Shaped(s)
  {
    && (s.main.Launching? ==> s.main.next <= |s.runners|)
    && forall t | 0 <= t < |s.runners| ::
      && (s.main.Launching? ==> (s.runners[t].Absent? <==> s.main.next <= t))
      && (s.main.AwaitingRound? ==> !s.runners[t].Absent?)
      && (!s.main.Launching? && !s.main.AwaitingRound? ==> s.runners[t].Absent?)
      && s.calls[t] == s.rounds + if s.runners[t].Running? || s.runners[t].Joined? then 1 else 0
  }

  ghost predicate Inv(s: System) {
    && Shaped(s) && DistinctUpstreams(s.configs)
    && WorkersOk(s)
    && RunnersOk(s)
    && (IsBuilding(s) ==> s.rounds == 0 && !s.isInitialized)
    && (s.main.Publishing? || s.main.Ticking? ==> s.rounds >= 1)
    && (s.rounds == 0 ==> !s.isInitialized)
    && (s.rounds >= 2 ==> s.isInitialized)
    && (s.rounds >= 1 && !s.main.Publishing? ==> s.isInitialized)
  }

  predicate IsWorkerStep(step: Step) {
    step.Spawn? || step.Build? || step.Lock? || step.SetStatus? || step.Unlock?
  }

  /** IDs being distinct, a worker overwrites nobody else's status. */
  lemma SetStatusKeepsInv(s: System, w: nat)
    requires Inv(s) && Enabled(s, SetStatus(w))
    ensures Inv(Do(s, SetStatus(w)))
  {
    var s' := Do(s, SetStatus(w));
    forall v | 0 <= v < |s.configs| && v != w ensures s.configs[v].id != s.configs[w].id {
      if v < w {
        assert s.configs[v].id != s.configs[w].id;
      } else {
        assert s.configs[w].id != s.configs[v].id;
      }
    }
    assert WorkersOk(s');
    assert RunnersOk(s');
  }

  lemma WorkerStepKeepsInv(s: System, step: Step)
    requires Inv(s) && Enabled(s, step)
    requires IsWorkerStep(step) && !step.SetStatus?
    ensures Inv(Do(s, step))
  {
    var s' := Do(s, step);
    assert WorkersOk(s');
    assert RunnersOk(s');
  }

  /** The end of a round: everybody has been called once more, and nobody is left. */
  lemma RoundJoinedKeepsInv(s: System)
    requires Inv(s) && Enabled(s, RoundJoined)
    ensures Inv(Do(s, RoundJoined))
  {
    assert RunnersOk(Do(s, RoundJoined));
  }

  lemma RoundStepKeepsInv(s: System, step: Step)
    requires Inv(s) && Enabled(s, step)
    requires !IsWorkerStep(step) && !step.RoundJoined?
    ensures Inv(Do(s, step))
  {
    var s' := Do(s, step);
    assert RunnersOk(s');
    assert WorkersOk(s');
  }

  lemma StepKeepsInv(s: System, step: Step)
    requires Inv(s) && Enabled(s, step)
    ensures Inv(Do(s, step)) && Do(s, step).configs == s.configs
  {
    if step.SetStatus? {
      SetStatusKeepsInv(s, step.worker);
    } else if step.RoundJoined? {
      RoundJoinedKeepsInv(s);
    } else if IsWorkerStep(step) {
      WorkerStepKeepsInv(s, step);
    } else {
      RoundStepKeepsInv(s, step);
    }
  }

  lemma {:induction false} RunKeepsInv(configs: seq<UpstreamConfig>, states: seq<System>, steps: seq<Step>, i: nat)
    requires IsRun(configs, states, steps) && i < |states| && DistinctUpstreams(configs)
    ensures Inv(states[i]) && states[i].configs == configs
  {
    if i > 0 {
      RunKeepsInv(configs, states, steps, i - 1);
      StepKeepsInv(states[i - 1], steps[i - 1]);
    }
  }

  /** Whoever sees `isInitialized` finds every configured upstream, and no other, with all four
      checks, of which the block-height and the peer check have been run. */
  lemma InitializedMeansReady(configs: seq<UpstreamConfig>, states: seq<System>, steps: seq<Step>, i: nat)
    requires IsRun(configs, states, steps) && i < |states| && DistinctUpstreams(configs)
    requires states[i].isInitialized
    ensures Shaped(states[i]) && states[i].configs == configs
    ensures CoversExactly(states[i].statuses, configs)
    ensures forall w | 0 <= w < |configs| ::
      && configs[w].id in states[i].statuses
      && var status := states[i].statuses[configs[w].id];
        status.id == configs[w].id && status.groupID == configs[w].groupID
        && status.checks.blockHeight && status.checks.peer && status.checks.error && status.checks.latency
    ensures forall t | 0 <= t < 2 * |configs| :: states[i].calls[t] >= 1
  {
    RunKeepsInv(configs, states, steps, i);
    var s := states[i];
    assert forall w | 0 <= w < |configs| :: s.workers[w].Finished?;
  }

  /** After r rounds every check has been called r times, plus at most the one call of a round in
      progress; between rounds exactly r times. */
  lemma CallsCountRounds(configs: seq<UpstreamConfig>, states: seq<System>, steps: seq<Step>, i: nat, t: nat)
    requires IsRun(configs, states, steps) && i < |states| && DistinctUpstreams(configs) && t < 2 * |configs|
    ensures Shaped(states[i]) && states[i].configs == configs
    ensures var s := states[i];
      && s.rounds <= s.calls[t] <= s.rounds + 1
      && (s.main.Publishing? || s.main.Ticking? ==> s.calls[t] == s.rounds)
  {
    RunKeepsInv(configs, states, steps, i);
    var s := states[i];
    assert s.calls[t] == s.rounds + if s.runners[t].Running? || s.runners[t].Joined? then 1 else 0;
  }

  /** Rounds never overlap: a goroutine is only launched where the previous round's is gone, and
      always finds the status it needs, so that the look-up never panics. */
  lemma LaunchIsSafe(configs: seq<UpstreamConfig>, states: seq<System>, steps: seq<Step>, i: nat)
    requires IsRun(configs, states, steps) && i < |steps| && DistinctUpstreams(configs) && steps[i].Launch?
    ensures Shaped(states[i]) && states[i].configs == configs
    ensures var s, t := states[i], states[i].main.next;
      && s.runners[t].Absent?
      && (t == 0 ==> forall x | 0 <= x < |s.runners| :: s.runners[x].Absent?)
      && configs[t / 2].id in s.statuses && s.statuses[configs[t / 2].id] == Complete(configs[t / 2])
  {
    RunKeepsInv(configs, states, steps, i);
    var s := states[i];
    var u := s.main.next / 2;
    assert s.workers[u].Finished?;
  }

  /** The map of statuses is written by one goroutine at a time, and by nobody once rounds run. */
  lemma WritesAreExclusive(configs: seq<UpstreamConfig>, states: seq<System>, steps: seq<Step>, i: nat, w: nat)
    requires IsRun(configs, states, steps) && i < |steps| && DistinctUpstreams(configs) && steps[i] == SetStatus(w)
    ensures Shaped(states[i]) && states[i].configs == configs && IsBuilding(states[i])
    ensures forall v | 0 <= v < |configs| && v != w :: !states[i].workers[v].Locked?
  {
    RunKeepsInv(configs, states, steps, i);
    assert states[i].mutex == Some(w);
  }

  /** Interleaving is invisible between rounds: in every run, whenever the manager waits for the
      ticker, it is in the one state that the object reaches with its goroutines taking turns. */
  lemma InterleavingIsInvisible(
      configs: seq<UpstreamConfig>, states: seq<System>, steps: seq<Step>, i: nat, manager: HealthCheckManager)
    requires IsRun(configs, states, steps) && i < |states| && DistinctUpstreams(configs)
    requires states[i].main.Ticking?
    requires manager.rounds == states[i].rounds && manager.isInitialized
    requires CoversExactly(manager.upstreamIDToStatus, configs)
    requires manager.calls == seq(2 * |configs|, _ => states[i].rounds)
    ensures states[i] == System(configs, Ticking, seq(|configs|, _ => Finished), None, manager.upstreamIDToStatus,
                                seq(2 * |configs|, _ => Absent), manager.calls, manager.rounds, manager.isInitialized)
  {
    RunKeepsInv(configs, states, steps, i);
    var s := states[i];
    InitializedMeansReady(configs, states, steps, i);
    CoveringIsUnique(s.statuses, manager.upstreamIDToStatus, configs);
    assert s.workers == seq(|configs|, _ => Finished);
    assert s.runners == seq(2 * |configs|, _ => Absent);
    assert forall t | 0 <= t < |s.calls| :: s.calls[t] == s.rounds;
    assert s.calls == manager.calls;
    assert s.mutex == None;
  }

  // ---- Progress ----

  /** No deadlock: in every reachable state some goroutine can go on. */
  lemma Progress(s: System) returns (step: Step)
    requires Inv(s)
    ensures Enabled(s, step)
  {
    match s.main
    case Spawning(next) => step := if next < |s.configs| then Spawn else AllSpawned;
    case AwaitingWorkers =>
      if w :| 0 <= w < |s.configs| && !s.workers[w].Finished? {
        step := WorkerProgress(s, w);
      } else {
        step := WorkersJoined;
      }
    case Launching(next) => step := if next < |s.runners| then Launch else AllLaunched;
    case AwaitingRound =>
      if t :| 0 <= t < |s.runners| && !s.runners[t].Joined? {
        step := if s.runners[t].Launched? then Call(t) else Join(t);
      } else {
        step := RoundJoined;
      }
    case Publishing => step := Publish;
    case Ticking => step := Tick;
  }

  /** A worker can go on, or the one that holds the mutex can. */
  lemma WorkerProgress(s: System, w: nat) returns (step: Step)
    requires Inv(s) && w < |s.configs| && !s.workers[w].Finished? && !s.workers[w].Unspawned?
    ensures Enabled(s, step)
  {
    match s.workers[w]
    case Locked(_) => step := SetStatus(w);
    case Stored => step := Unlock(w);
    case Building(built) =>
      if built != ALL_CHECKS {
        step := Build(w, if !built.blockHeight then BlockHeight else if !built.peer then Peer
                         else if !built.error then ErrorRate else Latency);
      } else if s.mutex == None {
        step := Lock(w);
      } else {
        var holder := s.mutex.value;
        assert s.mutex == Some(holder);
        step := if s.workers[holder].Locked? then SetStatus(holder) else Unlock(holder);
      }
  }

  function Missing(b: bool): nat {
    if b then 0 else 1
  }

  /** How many steps a goroutine still has to take. */
  function WorkerSteps(worker: Worker): nat {
    match worker
    case Unspawned => 8
    case Building(b) => 3 + Missing(b.blockHeight) + Missing(b.peer) + Missing(b.error) + Missing(b.latency)
    case Locked(_) => 2
    case Stored => 1
    case Finished => 0
  }

  function RunnerSteps(runner: Runner): nat {
    match runner
    case Absent => 3
    case Launched => 2
    case Running => 1
    case Joined => 0
  }

  function MainSteps(main: Main): nat {
    match main
    case Spawning(_) => 5
    case AwaitingWorkers => 4
    case Launching(_) => 3
    case AwaitingRound => 2
    case Publishing => 1
    case Ticking => 0
  }

  function Total<T>(items: seq<T>, cost: T -> nat): nat {
    if items == [] then 0 else Total(items[..|items| - 1], cost) + cost(items[|items| - 1])
  }

  lemma {:induction false} TotalOfUpdate<T>(items: seq<T>, cost: T -> nat, k: nat, x: T)
    requires k < |items|
    ensures Total(items[k := x], cost) == Total(items, cost) - cost(items[k]) + cost(x)
  {
    var n := |items| - 1;
    if k < n {
      TotalOfUpdate(items[..n], cost, k, x);
      assert items[k := x][..n] == items[..n][k := x];
    } else {
      assert items[k := x][..n] == items[..n];
    }
  }

  lemma {:induction false} TotalOfSame<T>(items: seq<T>, cost: T -> nat, c: nat)
    requires forall x | x in items :: cost(x) == c
    ensures Total(items, cost) == |items| * c
  {
    if items != [] {
      var n := |items| - 1;
      assert items[n] in items;
      TotalOfSame(items[..n], cost, c);
      assert (n + 1) * c == n * c + c;
    }
  }

  /** How many steps remain until the manager next waits for the ticker. */
  function StepsToTicker(s: System): nat {
    if s.main.Publishing? || s.main.Ticking? then MainSteps(s.main)
    else MainSteps(s.main) + Total(s.workers, WorkerSteps) + Total(s.runners, RunnerSteps)
  }

  /** How often the ticker has fired. */
  function Ticks(s: System): int {
    if s.main.Publishing? || s.main.Ticking? then s.rounds - 1 else s.rounds
  }

  const PER_UPSTREAM := 14
  const ROUND_PER_UPSTREAM := 6

  /** What the count needs to know about a step: goroutines are spawned and launched once, and a
      round ends and starts with all of them in the same place. */
  ghost predicate IsCountable(s: System, step: Step)
    requires Shaped(s)
  {
    && (step.Spawn? ==> s.main.Spawning? && s.main.next < |s.workers| && s.workers[s.main.next].Unspawned?)
    && (step.Launch? ==> s.main.Launching? && s.main.next < |s.runners| && s.runners[s.main.next].Absent?)
    && (step.RoundJoined? || step.Tick? ==> forall x | x in s.workers :: x == Finished)
    && (step.RoundJoined? ==> forall x | x in s.runners :: x == Joined)
    && (step.Tick? ==> forall x | x in s.runners :: x == Absent)
    && (!step.Publish? && !step.Tick? ==>
          !s.main.Publishing? && !s.main.Ticking?)
  }

  lemma StepsAreCountable(s: System, step: Step)
    requires Inv(s) && Enabled(s, step)
    ensures IsCountable(s, step)
  {
    if step.Build? || step.Lock? || step.SetStatus? || step.Unlock? {
      assert !s.workers[step.worker].Finished?;
    } else if step.Call? || step.Join? {
      assert !s.runners[step.task].Absent?;
    }
  }

  lemma OneWorkerStep(s: System, step: Step, w: nat)
    requires Shaped(s) && Enabled(s, step) && IsCountable(s, step) && IsWorkerStep(step)
    requires w == if step.Spawn? then s.main.next else step.worker
    ensures var s' := Do(s, step);
      && s'.workers == s.workers[w := s'.workers[w]] && s'.runners == s.runners
      && WorkerSteps(s.workers[w]) == WorkerSteps(s'.workers[w]) + 1
      && !s'.main.Publishing? && !s'.main.Ticking? && MainSteps(s'.main) == MainSteps(s.main)
  {
  }

  /** A step of a worker is one of the steps left. */
  lemma WorkerStepCounts(s: System, step: Step)
    requires Shaped(s) && Enabled(s, step) && IsCountable(s, step) && IsWorkerStep(step)
    ensures StepsToTicker(s) == StepsToTicker(Do(s, step)) + 1
  {
    var w := if step.Spawn? then s.main.next else step.worker;
    OneWorkerStep(s, step, w);
    TotalOfUpdate(s.workers, WorkerSteps, w, Do(s, step).workers[w]);
  }

  predicate IsRunnerStep(step: Step) {
    step.Launch? || step.Call? || step.Join?
  }

  /** So is a step of a round's goroutine. */
  lemma RunnerStepCounts(s: System, step: Step)
    requires Shaped(s) && Enabled(s, step) && IsCountable(s, step) && IsRunnerStep(step)
    ensures StepsToTicker(s) == StepsToTicker(Do(s, step)) + 1
  {
    var t := if step.Launch? then s.main.next else step.task;
    TotalOfUpdate(s.runners, RunnerSteps, t, Do(s, step).runners[t]);
  }

  /** So is every other step but a tick, which starts a round of a fixed number of steps. */
  lemma ManagerStepCounts(s: System, step: Step)
    requires Shaped(s) && Enabled(s, step) && IsCountable(s, step)
    requires !IsWorkerStep(step) && !IsRunnerStep(step)
    ensures var s' := Do(s, step);
      if step.Tick? then StepsToTicker(s) == 0 && StepsToTicker(s') == ROUND_PER_UPSTREAM * |s.configs| + 3
      else StepsToTicker(s) == StepsToTicker(s') + 1
  {
    if step.RoundJoined? || step.Tick? {
      TotalOfSame(s.workers, WorkerSteps, 0);
      TotalOfSame(s.runners, RunnerSteps, if step.Tick? then 3 else 0);
    }
  }

  lemma RunCounts(configs: seq<UpstreamConfig>, states: seq<System>, steps: seq<Step>, i: nat)
    requires IsRun(configs, states, steps) && i < |steps| && DistinctUpstreams(configs)
    ensures var n, ticked := |configs|, steps[i].Tick?;
      && Ticks(states[i + 1]) == Ticks(states[i]) + (if ticked then 1 else 0)
      && StepsToTicker(states[i + 1])
         == StepsToTicker(states[i]) - 1 + if ticked then ROUND_PER_UPSTREAM * n + 4 else 0
  {
    RunKeepsInv(configs, states, steps, i);
    StepsAreCountable(states[i], steps[i]);
    var s, step := states[i], steps[i];
    if IsWorkerStep(step) {
      WorkerStepCounts(s, step);
    } else if IsRunnerStep(step) {
      RunnerStepCounts(s, step);
    } else {
      ManagerStepCounts(s, step);
    }
  }

  /** The schedule is exact: whatever the interleaving, a state shows how many steps have been
      taken. So the first round ends after a fixed number of steps, and so does each one after. */
  lemma {:induction false} ScheduleIsExact(configs: seq<UpstreamConfig>, states: seq<System>, steps: seq<Step>, i: nat)
    requires IsRun(configs, states, steps) && i < |states| && DistinctUpstreams(configs)
    ensures i + StepsToTicker(states[i])
      == PER_UPSTREAM * |configs| + 5 + Ticks(states[i]) * (ROUND_PER_UPSTREAM * |configs| + 4)
  {
    if i == 0 {
      InitialSteps(configs);
    } else {
      ScheduleIsExact(configs, states, steps, i - 1);
      RunCounts(configs, states, steps, i - 1);
      OneTickMore(Ticks(states[i - 1]), ROUND_PER_UPSTREAM * |configs| + 4);
    }
  }

  lemma InitialSteps(configs: seq<UpstreamConfig>)
    ensures StepsToTicker(Initial(configs)) == PER_UPSTREAM * |configs| + 5 && Ticks(Initial(configs)) == 0
  {
    TotalOfSame(Initial(configs).workers, WorkerSteps, 8);
    TotalOfSame(Initial(configs).runners, RunnerSteps, 3);
  }

  lemma OneTickMore(ticks: int, round: nat)
    ensures (ticks + 1) * round == ticks * round + round
  {
  }

  /** Initialization terminates: no run gets further than that many steps without being
      initialized, and none is ever stuck. */
  lemma AlwaysInitializes(configs: seq<UpstreamConfig>, states: seq<System>, steps: seq<Step>, i: nat)
    returns (step: Step)
    requires IsRun(configs, states, steps) && i < |states| && DistinctUpstreams(configs)
    ensures Shaped(states[i]) && Enabled(states[i], step)
    ensures i >= PER_UPSTREAM * |configs| + 5 ==> states[i].isInitialized
  {
    RunKeepsInv(configs, states, steps, i);
    step := Progress(states[i]);
    ScheduleIsExact(configs, states, steps, i);
    var s := states[i];
    if !s.isInitialized {
      assert Ticks(s) == 0;
      assert StepsToTicker(s) >= 1;
    }
  }
}
