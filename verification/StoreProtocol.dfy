/** The block-height store as a protocol: any number of callers, one unbuffered channel,
    one consumer. Every step of every goroutine is a step here, each write included. */
module StoreProtocol {
  import opened Wrappers
  import opened ChainStore

  /** Where a caller stands. `Sent`: the channel took its closure, the caller has not moved yet. */
  datatype Pc = Sending | Sent | Returned | Waiting | Answered(status: Status)

  datatype Call = Call(op: Op, pc: Pc)

  /** Where the consumer stands. `Running(c, k)`: k writes of the closure of call c are done. */
  datatype Consumer =
    | Unstarted
    | Receiving
    | Running(call: nat, done: nat)
    | Replying(call: nat, status: Status)
    | Closing

  datatype Entry = Entry(call: nat, op: Op)

  /** `log` is history: the calls whose closures the channel delivered, in that order. */
  datatype System = System(mem: Memory, calls: seq<Call>, consumer: Consumer, log: seq<Entry>)

  datatype Step =
    | Arrive(op: Op)
    | Start
    | Take(call: nat)
    | Proceed(call: nat)
    | Store
    | Finish
    | Build
    | Reply
    | Close

  const INITIAL: System := System(EMPTY, [], Unstarted, [])

  predicate IsRunning(s: System) {
    s.consumer.Running? && s.consumer.call < |s.calls|
  }

  predicate Enabled(s: System, step: Step) {
    match step
    case Arrive(_) => true
    case Start => s.consumer.Unstarted?
    case Take(c) => s.consumer.Receiving? && c < |s.calls| && s.calls[c].pc.Sending?
    case Proceed(c) => c < |s.calls| && s.calls[c].pc.Sent?
    case Store => IsRunning(s) && s.consumer.done < Writes(s.calls[s.consumer.call].op)
    case Finish =>
      IsRunning(s) && !s.calls[s.consumer.call].op.Read? && s.consumer.done == Writes(s.calls[s.consumer.call].op)
    case Build => IsRunning(s) && s.calls[s.consumer.call].op.Read?
    case Reply =>
      s.consumer.Replying? && s.consumer.call < |s.calls| && s.calls[s.consumer.call].pc.Waiting?
    case Close => s.consumer.Closing?
  }

  function Do(s: System, step: Step): System
    requires Enabled(s, step)
  {
    match step
    case Arrive(op) => s.(calls := s.calls + [Call(op, Sending)])
    case Start => s.(consumer := Receiving)
    case Take(c) =>
      s.(calls := s.calls[c := s.calls[c].(pc := Sent)],
         consumer := Running(c, 0),
         log := s.log + [Entry(c, s.calls[c].op)])
    case Proceed(c) =>
      s.(calls := s.calls[c := s.calls[c].(pc := if s.calls[c].op.Read? then Waiting else Returned)])
    case Store =>
      var Running(c, k) := s.consumer;
      s.(mem := Write(s.mem, s.calls[c].op, k), consumer := Running(c, k + 1))
    case Finish => s.(consumer := Receiving)
    case Build =>
      var op := s.calls[s.consumer.call].op;
      s.(consumer := Replying(s.consumer.call, Answer(s.mem, op.groupID, op.upstreamID)))
    case Reply =>
      var Replying(c, status) := s.consumer;
      s.(calls := s.calls[c := s.calls[c].(pc := Answered(status))], consumer := Closing)
    case Close => s.(consumer := Receiving)
  }

  /** A run: any interleaving of enabled steps from the initial state. */
  ghost predicate IsRun(states: seq<System>, steps: seq<Step>) {
    && |states| == |steps| + 1
    && states[0] == INITIAL
    && forall i | 0 <= i < |steps| :: Enabled(states[i], steps[i]) && states[i + 1] == Do(states[i], steps[i])
  }

  function OpsOf(log: seq<Entry>): (ops: seq<Op>)
    ensures |ops| == |log|
    ensures forall k | 0 <= k < |log| :: ops[k] == log[k].op
  {
    seq(|log|, k requires 0 <= k < |log| => log[k].op)
  }

  /** The reply of the call delivered k-th, if the earlier closures ran one after another. */
  ghost predicate AnsweredAt(log: seq<Entry>, k: nat, c: nat, status: Status) {
    && k < |log|
    && log[k].call == c
    && log[k].op.Read?
    && status == Answer(Fold(OpsOf(log[..k])), log[k].op.groupID, log[k].op.upstreamID)
  }

  predicate Delivered(log: seq<Entry>, c: nat) {
    exists k :: 0 <= k < |log| && log[k].call == c
  }

  ghost predicate LogOk(s: System) {
    && (forall k | 0 <= k < |s.log| :: s.log[k].call < |s.calls| && s.log[k].op == s.calls[s.log[k].call].op)
    && (forall j, k | 0 <= j < k < |s.log| :: s.log[j].call != s.log[k].call)
  }

  ghost predicate CallOk(s: System, c: nat)
    requires c < |s.calls|
  {
    var Call(op, pc) := s.calls[c];
    && (pc.Sending? <==> !Delivered(s.log, c))
    && (pc.Waiting? || pc.Answered? ==> op.Read?)
    && (pc.Returned? ==> !op.Read?)
    && (op.Read? && (pc.Sent? || pc.Waiting?) ==> Serving(s.consumer, c))
    && (pc.Answered? ==> exists k: nat :: AnsweredAt(s.log, k, c, pc.status))
  }

  predicate Serving(consumer: Consumer, c: nat) {
    (consumer.Running? || consumer.Replying?) && consumer.call == c
  }

  /** Memory is the sequential fold, plus the writes already done of the closure being run. */
  ghost predicate ConsumerOk(s: System) {
    var n := |s.log|;
    match s.consumer
    case Unstarted => n == 0 && s.mem == EMPTY
    case Receiving => s.mem == Fold(OpsOf(s.log))
    case Closing => s.mem == Fold(OpsOf(s.log))
    case Running(c, k) =>
      && n > 0 && s.log[n - 1].call == c && k <= Writes(s.log[n - 1].op)
      && s.mem == Partial(Fold(OpsOf(s.log[..n - 1])), s.log[n - 1].op, k)
      && c < |s.calls| && (s.log[n - 1].op.Read? ==> s.calls[c].pc.Sent? || s.calls[c].pc.Waiting?)
    case Replying(c, status) =>
      && n > 0 && AnsweredAt(s.log, n - 1, c, status)
      && s.mem == Fold(OpsOf(s.log))
      && c < |s.calls| && (s.calls[c].pc.Sent? || s.calls[c].pc.Waiting?)
  }

  ghost predicate Inv(s: System) {
    && LogOk(s)
    && ConsumerOk(s)
    && forall c: nat | c < |s.calls| :: CallOk(s, c)
  }

  lemma FoldLast(log: seq<Entry>)
    requires log != []
    ensures Fold(OpsOf(log)) == Apply(Fold(OpsOf(log[..|log| - 1])), log[|log| - 1].op)
  {
    var ops := OpsOf(log);
    assert ops[..|ops| - 1] == OpsOf(log[..|log| - 1]);
  }

  /** A longer log keeps what a shorter one established. */
  lemma AnsweredAtGrows(log: seq<Entry>, e: Entry, k: nat, c: nat, status: Status)
    requires AnsweredAt(log, k, c, status)
    ensures AnsweredAt(log + [e], k, c, status)
  {
    assert (log + [e])[..k] == log[..k];
  }

  lemma TakeKeepsCall(s: System, c: nat, d: nat)
    requires Inv(s) && Enabled(s, Take(c)) && d < |s.calls|
    ensures CallOk(Do(s, Take(c)), d)
  {
    var log' := Do(s, Take(c)).log;
    assert CallOk(s, d);
    if d == c {
      assert log'[|s.log|].call == c;
    } else {
      assert Delivered(log', d) <==> Delivered(s.log, d) by {
        if Delivered(s.log, d) {
          var k :| 0 <= k < |s.log| && s.log[k].call == d;
          assert log'[k].call == d;
        }
      }
      if s.calls[d].pc.Answered? {
        var k: nat :| AnsweredAt(s.log, k, d, s.calls[d].pc.status);
        AnsweredAtGrows(s.log, Entry(c, s.calls[c].op), k, d, s.calls[d].pc.status);
      }
    }
  }

  lemma TakeKeepsInv(s: System, c: nat)
    requires Inv(s) && Enabled(s, Take(c))
    ensures Inv(Do(s, Take(c)))
  {
    var s' := Do(s, Take(c));
    assert s'.log[..|s.log|] == s.log;
    assert CallOk(s, c);
    forall d: nat | d < |s'.calls| ensures CallOk(s', d) {
      TakeKeepsCall(s, c, d);
    }
  }

  lemma ArriveKeepsInv(s: System, op: Op)
    requires Inv(s)
    ensures Inv(Do(s, Arrive(op)))
  {
    var s' := Do(s, Arrive(op));
    forall d: nat | d < |s'.calls| ensures CallOk(s', d) {
      if d < |s.calls| {
        assert CallOk(s, d);
      } else {
        assert forall k | 0 <= k < |s.log| :: s.log[k].call < |s.calls|;
      }
    }
  }

  lemma ReplyKeepsInv(s: System)
    requires Inv(s) && Enabled(s, Reply)
    ensures Inv(Do(s, Reply))
  {
    var s' := Do(s, Reply);
    var c := s.consumer.call;
    assert CallOk(s, c);
    assert AnsweredAt(s'.log, |s.log| - 1, c, s.consumer.status);
    forall d: nat | d < |s'.calls| ensures CallOk(s', d) {
      assert CallOk(s, d);
    }
  }

  lemma ConsumerStepKeepsInv(s: System, step: Step)
    requires Inv(s) && Enabled(s, step)
    requires step.Store? || step.Finish? || step.Build?
    ensures Inv(Do(s, step))
  {
    var s' := Do(s, step);
    var n := |s.log|;
    var c := s.consumer.call;
    FoldLast(s.log);
    var op := s.log[n - 1].op;
    if step.Build? {
      ApplyEffect(Fold(OpsOf(s.log[..n - 1])), op);
      assert AnsweredAt(s'.log, n - 1, c, s'.consumer.status);
    }
    forall d: nat | d < |s'.calls| ensures CallOk(s', d) {
      assert CallOk(s, d);
    }
  }

  lemma IdleStepKeepsInv(s: System, step: Step)
    requires Inv(s) && Enabled(s, step)
    requires step.Start? || step.Close?
    ensures Inv(Do(s, step))
  {
    var s' := Do(s, step);
    forall d: nat | d < |s'.calls| ensures CallOk(s', d) {
      assert CallOk(s, d);
    }
  }

  lemma ProceedKeepsInv(s: System, c: nat)
    requires Inv(s) && Enabled(s, Proceed(c))
    ensures Inv(Do(s, Proceed(c)))
  {
    var s' := Do(s, Proceed(c));
    forall d: nat | d < |s'.calls| ensures CallOk(s', d) {
      assert CallOk(s, d);
    }
  }

  lemma StepKeepsInv(s: System, step: Step)
    requires Inv(s) && Enabled(s, step)
    ensures Inv(Do(s, step))
  {
    match step
    case Arrive(op) => ArriveKeepsInv(s, op);
    case Take(c) => TakeKeepsInv(s, c);
    case Proceed(c) => ProceedKeepsInv(s, c);
    case Reply => ReplyKeepsInv(s);
    case Store => ConsumerStepKeepsInv(s, step);
    case Finish => ConsumerStepKeepsInv(s, step);
    case Build => ConsumerStepKeepsInv(s, step);
    case Start => IdleStepKeepsInv(s, step);
    case Close => IdleStepKeepsInv(s, step);
  }

  lemma {:induction false} RunKeepsInv(states: seq<System>, steps: seq<Step>, i: nat)
    requires IsRun(states, steps) && i < |states|
    ensures Inv(states[i])
  {
    if i > 0 {
      RunKeepsInv(states, steps, i - 1);
      StepKeepsInv(states[i - 1], steps[i - 1]);
    }
  }

  predicate Finished(s: System, c: nat) {
    c < |s.calls| && (s.calls[c].pc.Returned? || s.calls[c].pc.Answered?)
  }

  /** Along a run the log and the calls only grow, and a finished call stays as it is. */
  ghost predicate Follows(s: System, s': System) {
    && |s.log| <= |s'.log| && s'.log[..|s.log|] == s.log
    && |s.calls| <= |s'.calls|
    && (forall c: nat | c < |s.calls| :: s'.calls[c].op == s.calls[c].op)
    && (forall c: nat | Finished(s, c) :: s'.calls[c].pc == s.calls[c].pc)
  }

  lemma StepFollows(s: System, step: Step)
    requires Inv(s) && Enabled(s, step)
    ensures Follows(s, Do(s, step))
  {
    var s' := Do(s, step);
    assert s'.log[..|s.log|] == s.log;
  }

  lemma {:induction false} RunFollows(states: seq<System>, steps: seq<Step>, i: nat, j: nat)
    requires IsRun(states, steps) && i <= j < |states|
    ensures Follows(states[i], states[j])
    decreases j
  {
    if i < j {
      RunFollows(states, steps, i, j - 1);
      RunKeepsInv(states, steps, j - 1);
      StepFollows(states[j - 1], steps[j - 1]);
      var s, t, u := states[i], states[j - 1], states[j];
      assert u.log[..|s.log|] == u.log[..|t.log|][..|s.log|];
    } else {
      assert states[i].log[..|states[i].log|] == states[i].log;
    }
  }

  /** Linearizability. Each reply equals the sequential fold of the closures delivered before
      it; and that prefix holds every call that had returned before this one was made, although
      an update returns before its closure runs. */
  lemma Linearizable(states: seq<System>, steps: seq<Step>, i: nat, j: nat, a: nat, b: nat) returns (k: nat)
    requires IsRun(states, steps) && i <= j < |states|
    requires Finished(states[i], a)
    requires |states[i].calls| <= b < |states[j].calls| && states[j].calls[b].pc.Answered?
    ensures AnsweredAt(states[j].log, k, b, states[j].calls[b].pc.status)
    ensures Delivered(states[j].log[..k], a)
    ensures forall m | 0 <= m < |states[i].log| :: m < k && states[j].log[m] == states[i].log[m]
  {
    var s, t := states[i], states[j];
    RunKeepsInv(states, steps, i);
    RunKeepsInv(states, steps, j);
    RunFollows(states, steps, i, j);
    assert CallOk(t, b);
    k :| AnsweredAt(t.log, k, b, t.calls[b].pc.status);
    assert CallOk(s, a);
    var m :| 0 <= m < |s.log| && s.log[m].call == a;
    assert forall m | 0 <= m < |s.log| :: t.log[m] == s.log[m];
    assert t.log[k].call == b && k >= |s.log|;
    assert t.log[..k][m].call == a;
  }

  /** What the reader is told, without running anything: the reply describes the closures
      delivered before its own. */
  lemma RepliesDescribeDelivery(states: seq<System>, steps: seq<Step>, j: nat, b: nat) returns (k: nat)
    requires IsRun(states, steps) && j < |states|
    requires b < |states[j].calls| && states[j].calls[b].pc.Answered?
    ensures k < |states[j].log| && states[j].log[k].call == b && states[j].calls[b].op.Read?
    ensures Describes(states[j].calls[b].pc.status, OpsOf(states[j].log[..k]),
                      states[j].calls[b].op.groupID, states[j].calls[b].op.upstreamID)
  {
    RunKeepsInv(states, steps, j);
    var t := states[j];
    assert CallOk(t, b);
    k :| AnsweredAt(t.log, k, b, t.calls[b].pc.status);
    AnswerMeaning(OpsOf(t.log[..k]), t.log[k].op.groupID, t.log[k].op.upstreamID);
  }

  /** A reader sees at least every height whose report had returned before it asked. */
  lemma ReadsSeeReturnedReports(states: seq<System>, steps: seq<Step>, i: nat, j: nat, a: nat, b: nat)
    requires IsRun(states, steps) && i <= j < |states|
    requires Finished(states[i], a) && states[i].calls[a].op.HeightUpdate?
    requires |states[i].calls| <= b < |states[j].calls| && states[j].calls[b].pc.Answered?
    ensures var status, op := states[j].calls[b].pc.status, states[i].calls[a].op;
      && op.height <= status.globalMax
      && (op.groupID == status.groupID ==> op.height <= status.groupMax)
  {
    var k := Linearizable(states, steps, i, j, a, b);
    var t := states[j];
    RunKeepsInv(states, steps, j);
    RunFollows(states, steps, i, j);
    var before := t.log[..k];
    var m :| 0 <= m < |before| && before[m].call == a;
    assert before[m] == t.log[m] && OpsOf(before)[m] == states[i].calls[a].op;
    AnswerMeaning(OpsOf(before), t.log[k].op.groupID, t.log[k].op.upstreamID);
    assert InScope(OpsOf(before)[m], Everyone);
  }

  lemma LongerPrefixGrows(log: seq<Entry>, m: nat, n: nat, scope: Scope)
    requires m <= n <= |log|
    ensures MaxOf(Fold(OpsOf(log[..m])), scope) <= MaxOf(Fold(OpsOf(log[..n])), scope)
  {
    var earlier, later := OpsOf(log[..m]), OpsOf(log[..n]);
    assert later == earlier + later[m..];
    MaximaGrow(earlier, later[m..], scope);
  }

  /** Two reads, one made after the other returned, never see a maximum go down. */
  lemma ReadsSeeMaximaGrow(states: seq<System>, steps: seq<Step>, i: nat, j: nat, a: nat, b: nat)
    requires IsRun(states, steps) && i <= j < |states|
    requires a < |states[i].calls| && states[i].calls[a].pc.Answered?
    requires |states[i].calls| <= b < |states[j].calls| && states[j].calls[b].pc.Answered?
    ensures var first, second := states[i].calls[a].pc.status, states[j].calls[b].pc.status;
      && first.globalMax <= second.globalMax
      && (first.groupID == second.groupID ==> first.groupMax <= second.groupMax)
  {
    var k := Linearizable(states, steps, i, j, a, b);
    var s, t := states[i], states[j];
    RunKeepsInv(states, steps, i);
    assert CallOk(s, a);
    var ka: nat :| AnsweredAt(s.log, ka, a, s.calls[a].pc.status);
    assert ka < k;
    assert s.log[..ka] == t.log[..ka];
    LongerPrefixGrows(t.log, ka, k, Everyone);
    LongerPrefixGrows(t.log, ka, k, Group(t.log[k].op.groupID));
  }

  // ---- Progress ----

  predicate AllFinished(s: System) {
    forall c: nat | c < |s.calls| :: Finished(s, c)
  }

  predicate Internal(step: Step) {
    !step.Arrive? && !step.Start?
  }

  /** No deadlock: once started, whenever some call is unfinished, some step of a caller or of
      the consumer is enabled. */
  lemma Progress(s: System) returns (step: Step)
    requires Inv(s) && !s.consumer.Unstarted? && !AllFinished(s)
    ensures Internal(step) && Enabled(s, step)
  {
    var c: nat :| c < |s.calls| && !Finished(s, c);
    assert CallOk(s, c);
    match s.consumer
    case Receiving =>
      step := if s.calls[c].pc.Sending? then Take(c) else Proceed(c);
    case Closing =>
      step := Close;
    case Running(d, k) =>
      step := if s.calls[d].op.Read? then Build else if k < Writes(s.calls[d].op) then Store else Finish;
    case Replying(d, _) =>
      step := if s.calls[d].pc.Sent? then Proceed(d) else Reply;
  }

  function Weight(pc: Pc): nat {
    match pc
    case Sending => 8
    case Sent => 1
    case _ => 0
  }

  function CallsWeight(calls: seq<Call>): nat {
    if calls == [] then 0 else CallsWeight(calls[..|calls| - 1]) + Weight(calls[|calls| - 1].pc)
  }

  function ConsumerWeight(consumer: Consumer): int {
    match consumer
    case Unstarted => 0
    case Receiving => 0
    case Running(_, k) => 6 - k
    case Replying(_, _) => 2
    case Closing => 1
  }

  function Measure(s: System): int {
    CallsWeight(s.calls) + ConsumerWeight(s.consumer)
  }

  lemma {:induction false} WeightOfUpdate(calls: seq<Call>, c: nat, call: Call)
    requires c < |calls|
    ensures CallsWeight(calls[c := call]) == CallsWeight(calls) - Weight(calls[c].pc) + Weight(call.pc)
  {
    var n := |calls| - 1;
    if c < n {
      WeightOfUpdate(calls[..n], c, call);
      assert calls[c := call][..n] == calls[..n][c := call];
    } else {
      assert calls[c := call][..n] == calls[..n];
    }
  }

  /** Without new calls, every step brings the store closer to rest. */
  lemma StepsDecreaseMeasure(s: System, step: Step)
    requires Inv(s) && Enabled(s, step) && Internal(step)
    ensures 0 <= Measure(Do(s, step)) < Measure(s)
  {
    match step
    case Take(c) => WeightOfUpdate(s.calls, c, s.calls[c].(pc := Sent));
    case Proceed(c) => WeightOfUpdate(s.calls, c, Do(s, step).calls[c]);
    case Reply => WeightOfUpdate(s.calls, s.consumer.call, Do(s, step).calls[s.consumer.call]);
    case _ =>
  }

  lemma MeasureNonNegative(s: System)
    requires Inv(s)
    ensures 0 <= Measure(s)
  {
  }

  lemma {:induction false} MeasureDropsAlong(states: seq<System>, steps: seq<Step>, i: nat, j: nat)
    requires IsRun(states, steps) && i <= j < |states|
    requires forall k | i <= k < j :: Internal(steps[k])
    ensures 0 <= Measure(states[j]) <= Measure(states[i]) - (j - i)
    decreases j
  {
    if i < j {
      MeasureDropsAlong(states, steps, i, j - 1);
      RunKeepsInv(states, steps, j - 1);
      StepsDecreaseMeasure(states[j - 1], steps[j - 1]);
    } else {
      RunKeepsInv(states, steps, i);
      MeasureNonNegative(states[i]);
    }
  }

  /** Once calls stop arriving on a started store, at most `Measure` further steps happen; and
      a run that cannot be continued has finished every call. */
  lemma EveryCallFinishes(states: seq<System>, steps: seq<Step>, i: nat)
    requires IsRun(states, steps) && i < |states| && !states[i].consumer.Unstarted?
    requires forall k | i <= k < |steps| :: Internal(steps[k])
    ensures |steps| - i <= Measure(states[i])
    ensures (forall step | Internal(step) :: !Enabled(states[|steps|], step)) ==> AllFinished(states[|steps|])
  {
    var last := |steps|;
    MeasureDropsAlong(states, steps, i, last);
    RunKeepsInv(states, steps, last);
    StaysStarted(states, steps, i, last);
    if !AllFinished(states[last]) {
      var step := Progress(states[last]);
    }
  }

  lemma {:induction false} StaysStarted(states: seq<System>, steps: seq<Step>, i: nat, j: nat)
    requires IsRun(states, steps) && i <= j < |states| && !states[i].consumer.Unstarted?
    ensures !states[j].consumer.Unstarted?
    decreases j
  {
    if i < j {
      StaysStarted(states, steps, i, j - 1);
    }
  }

  /** A caller of an update can be back while its report is still nowhere in memory. */
  lemma UpdatesReturnBeforeTheyRun(g: string, u: string, h: UInt64)
    returns (states: seq<System>, steps: seq<Step>)
    ensures IsRun(states, steps) && |states| == 5
    ensures Finished(states[4], 0) && states[4].calls[0].op == HeightUpdate(g, u, h)
    ensures states[4].mem == EMPTY
  {
    steps := [Start, Arrive(HeightUpdate(g, u, h)), Take(0), Proceed(0)];
    var s1 := Do(INITIAL, steps[0]);
    var s2 := Do(s1, steps[1]);
    var s3 := Do(s2, steps[2]);
    var s4 := Do(s3, steps[3]);
    states := [INITIAL, s1, s2, s3, s4];
  }
}
