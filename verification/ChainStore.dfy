/** The block-height store: what each queued closure does to memory, and what the
    answers mean in terms of everything ever reported. */
module ChainStore {
  import opened Wrappers

  /** A closure sent on `opChannel`. Reporting a nil error is `ErrorUpdate(u, None)`. */
  datatype Op =
    | HeightUpdate(groupID: string, upstreamID: string, height: UInt64)
    | ErrorUpdate(upstreamID: string, error: Option<string>)
    | Read(groupID: string, upstreamID: string)

  datatype Memory = Memory(
    globalMax: UInt64,
    groupMax: map<string, UInt64>,
    heights: map<string, UInt64>,
    errors: map<string, Option<string>>)

  datatype Status = Status(
    error: Option<string>,
    groupID: string,
    upstreamID: string,
    height: UInt64,
    groupMax: UInt64,
    globalMax: UInt64)

  const EMPTY: Memory := Memory(0, map[], map[], map[])

  function Max(a: UInt64, b: UInt64): UInt64 {
    if a < b then b else a
  }

  /** The number of separate writes a closure makes. */
  function Writes(op: Op): nat {
    match op
    case HeightUpdate(_, _, _) => 4
    case ErrorUpdate(_, _) => 1
    case Read(_, _) => 0
  }

  /** The k-th write of a closure. */
  function Write(mem: Memory, op: Op, k: nat): Memory
    requires k < Writes(op)
  {
    match op
    case HeightUpdate(g, u, h) =>
      if k == 0 then mem.(globalMax := Max(mem.globalMax, h))
      else if k == 1 then mem.(groupMax := mem.groupMax[g := Max(Lookup(mem.groupMax, g, 0), h)])
      else if k == 2 then mem.(heights := mem.heights[u := h])
      else mem.(errors := mem.errors[u := None])
    case ErrorUpdate(u, e) => mem.(errors := mem.errors[u := e])
  }

  /** Memory after the first k writes of a closure. */
  function Partial(mem: Memory, op: Op, k: nat): Memory
    requires k <= Writes(op)
  {
    if k == 0 then mem else Write(Partial(mem, op, k - 1), op, k - 1)
  }

  function Apply(mem: Memory, op: Op): Memory {
    Partial(mem, op, Writes(op))
  }

  function Answer(mem: Memory, g: string, u: string): Status {
    Status(Lookup(mem.errors, u, None), g, u, Lookup(mem.heights, u, 0), Lookup(mem.groupMax, g, 0), mem.globalMax)
  }

  /** The store as a sequential object: run the closures in the order the channel delivered them. */
  function Fold(ops: seq<Op>): Memory {
    if ops == [] then EMPTY else Apply(Fold(ops[..|ops| - 1]), ops[|ops| - 1])
  }

  /** The reply, if any, to the i-th closure. */
  function ReplyTo(ops: seq<Op>, i: nat): Option<Status>
    requires i < |ops|
  {
    if ops[i].Read? then Some(Answer(Fold(ops[..i]), ops[i].groupID, ops[i].upstreamID)) else None
  }

  /** What every maximum ranges over. */
  datatype Scope = Everyone | Group(groupID: string)

  predicate InScope(op: Op, scope: Scope) {
    op.HeightUpdate? && (scope.Group? ==> op.groupID == scope.groupID)
  }

  function MaxOf(mem: Memory, scope: Scope): UInt64 {
    match scope
    case Everyone => mem.globalMax
    case Group(g) => Lookup(mem.groupMax, g, 0)
  }

  /** m is the largest height ever reported in the scope (0 when there was none). */
  ghost predicate IsMaximum(ops: seq<Op>, scope: Scope, m: UInt64) {
    && (forall i | 0 <= i < |ops| && InScope(ops[i], scope) :: ops[i].height <= m)
    && (m != 0 ==> exists i :: 0 <= i < |ops| && InScope(ops[i], scope) && ops[i].height == m)
  }

  predicate Reports(op: Op, u: string) {
    op.HeightUpdate? && op.upstreamID == u
  }

  /** The closures that decide an upstream's error: its own reports, of a height or of an error. */
  predicate Touches(op: Op, u: string) {
    !op.Read? && op.upstreamID == u
  }

  function ErrorSetBy(op: Op): Option<string> {
    if op.ErrorUpdate? then op.error else None
  }

  ghost predicate IsLatestReport(ops: seq<Op>, u: string, i: int) {
    0 <= i < |ops| && Reports(ops[i], u) && forall j | i < j < |ops| :: !Reports(ops[j], u)
  }

  ghost predicate IsLatestTouch(ops: seq<Op>, u: string, i: int) {
    0 <= i < |ops| && Touches(ops[i], u) && forall j | i < j < |ops| :: !Touches(ops[j], u)
  }

  /** An answer, told without running the store. */
  ghost predicate Describes(status: Status, ops: seq<Op>, g: string, u: string) {
    && status.groupID == g
    && status.upstreamID == u
    && IsMaximum(ops, Everyone, status.globalMax)
    && IsMaximum(ops, Group(g), status.groupMax)
    && (forall i | IsLatestReport(ops, u, i) :: status.height == ops[i].height)
    && ((forall i | 0 <= i < |ops| :: !Reports(ops[i], u)) ==> status.height == 0)
    && (forall i | IsLatestTouch(ops, u, i) :: status.error == ErrorSetBy(ops[i]))
    && ((forall i | 0 <= i < |ops| :: !Touches(ops[i], u)) ==> status.error == None)
  }

  lemma ApplyEffect(mem: Memory, op: Op)
    ensures op.HeightUpdate? ==>
      Apply(mem, op) == Memory(
        Max(mem.globalMax, op.height),
        mem.groupMax[op.groupID := Max(Lookup(mem.groupMax, op.groupID, 0), op.height)],
        mem.heights[op.upstreamID := op.height],
        mem.errors[op.upstreamID := None])
    ensures op.ErrorUpdate? ==> Apply(mem, op) == mem.(errors := mem.errors[op.upstreamID := op.error])
    ensures op.Read? ==> Apply(mem, op) == mem
  {
    if !op.Read? {
      assert Partial(mem, op, 1) == Write(Partial(mem, op, 0), op, 0);
    }
    if op.HeightUpdate? {
      assert Partial(mem, op, 2) == Write(Partial(mem, op, 1), op, 1);
      assert Partial(mem, op, 3) == Write(Partial(mem, op, 2), op, 2);
      assert Partial(mem, op, 4) == Write(Partial(mem, op, 3), op, 3);
    }
  }

  lemma {:induction false} FoldMaximum(ops: seq<Op>, scope: Scope)
    ensures IsMaximum(ops, scope, MaxOf(Fold(ops), scope))
  {
    if ops != [] {
      var n := |ops| - 1;
      var before := ops[..n];
      FoldMaximum(before, scope);
      ApplyEffect(Fold(before), ops[n]);
      var m, m' := MaxOf(Fold(before), scope), MaxOf(Fold(ops), scope);
      if m' != 0 && m' == m {
        var i :| 0 <= i < n && InScope(before[i], scope) && before[i].height == m;
        assert ops[i] == before[i];
      }
      forall i | 0 <= i < |ops| && InScope(ops[i], scope) ensures ops[i].height <= m' {
        if i < n {
          assert before[i] == ops[i];
        }
      }
    }
  }

  /** The last closure sets an upstream's height, or leaves it alone. */
  lemma LastReport(ops: seq<Op>, u: string)
    requires ops != []
    ensures var n := |ops| - 1;
      Lookup(Fold(ops).heights, u, 0)
      == if Reports(ops[n], u) then ops[n].height else Lookup(Fold(ops[..n]).heights, u, 0)
  {
    ApplyEffect(Fold(ops[..|ops| - 1]), ops[|ops| - 1]);
  }

  lemma {:induction false} FoldHeight(ops: seq<Op>, u: string)
    ensures forall i | IsLatestReport(ops, u, i) :: Lookup(Fold(ops).heights, u, 0) == ops[i].height
    ensures (forall i | 0 <= i < |ops| :: !Reports(ops[i], u)) ==> Lookup(Fold(ops).heights, u, 0) == 0
  {
    if ops != [] {
      var n := |ops| - 1;
      var before := ops[..n];
      FoldHeight(before, u);
      LastReport(ops, u);
      forall i | IsLatestReport(ops, u, i) ensures Lookup(Fold(ops).heights, u, 0) == ops[i].height {
        if i < n {
          assert !Reports(ops[n], u);
          assert IsLatestReport(before, u, i);
        }
      }
      if forall i | 0 <= i < |ops| :: !Reports(ops[i], u) {
        assert !Reports(ops[n], u);
      }
    }
  }

  /** The last closure sets an upstream's error, or leaves it alone. */
  lemma LastTouch(ops: seq<Op>, u: string)
    requires ops != []
    ensures var n := |ops| - 1;
      Lookup(Fold(ops).errors, u, None)
      == if Touches(ops[n], u) then ErrorSetBy(ops[n]) else Lookup(Fold(ops[..n]).errors, u, None)
  {
    ApplyEffect(Fold(ops[..|ops| - 1]), ops[|ops| - 1]);
  }

  lemma {:induction false} FoldError(ops: seq<Op>, u: string)
    ensures forall i | IsLatestTouch(ops, u, i) :: Lookup(Fold(ops).errors, u, None) == ErrorSetBy(ops[i])
    ensures (forall i | 0 <= i < |ops| :: !Touches(ops[i], u)) ==> Lookup(Fold(ops).errors, u, None) == None
  {
    if ops != [] {
      var n := |ops| - 1;
      var before := ops[..n];
      FoldError(before, u);
      LastTouch(ops, u);
      forall i | IsLatestTouch(ops, u, i) ensures Lookup(Fold(ops).errors, u, None) == ErrorSetBy(ops[i]) {
        if i < n {
          assert !Touches(ops[n], u);
          assert IsLatestTouch(before, u, i);
        }
      }
      if forall i | 0 <= i < |ops| :: !Touches(ops[i], u) {
        assert !Touches(ops[n], u);
      }
    }
  }

  /** Every answer the sequential store can give is the described one. */
  lemma AnswerMeaning(ops: seq<Op>, g: string, u: string)
    ensures Describes(Answer(Fold(ops), g, u), ops, g, u)
  {
    FoldMaximum(ops, Everyone);
    FoldMaximum(ops, Group(g));
    FoldHeight(ops, u);
    FoldError(ops, u);
  }

  /** The maxima never go down as more closures run. */
  lemma {:induction false} MaximaGrow(ops: seq<Op>, more: seq<Op>, scope: Scope)
    ensures MaxOf(Fold(ops), scope) <= MaxOf(Fold(ops + more), scope)
  {
    FoldMaximum(ops, scope);
    FoldMaximum(ops + more, scope);
    if MaxOf(Fold(ops), scope) != 0 {
      var i :| 0 <= i < |ops| && InScope(ops[i], scope) && ops[i].height == MaxOf(Fold(ops), scope);
      assert (ops + more)[i] == ops[i];
    }
  }

  /** Every report of u names the group g. */
  ghost predicate KeepsGroup(ops: seq<Op>, u: string, g: string) {
    forall i | 0 <= i < |ops| && Reports(ops[i], u) :: ops[i].groupID == g
  }

  lemma {:induction false} LatestReportExists(ops: seq<Op>, u: string) returns (i: int)
    requires exists k :: 0 <= k < |ops| && Reports(ops[k], u)
    ensures IsLatestReport(ops, u, i)
  {
    var n := |ops| - 1;
    if Reports(ops[n], u) {
      i := n;
    } else {
      var k :| 0 <= k < |ops| && Reports(ops[k], u);
      assert ops[..n][k] == ops[k];
      i := LatestReportExists(ops[..n], u);
      assert IsLatestReport(ops, u, i);
    }
  }

  /** height(u) <= groupMax(group of u) <= globalMax, in every state the store can be in.
      The test `height >= groupMax` is therefore equality with the maximum. */
  lemma HeightsBelowMaxima(ops: seq<Op>, g: string, u: string)
    requires KeepsGroup(ops, u, g)
    ensures var s := Answer(Fold(ops), g, u);
      && s.height <= s.groupMax <= s.globalMax
      && (s.height >= s.groupMax <==> IsMaximum(ops, Group(g), s.height))
  {
    AnswerMeaning(ops, g, u);
    var s := Answer(Fold(ops), g, u);
    if s.height != 0 {
      if forall k | 0 <= k < |ops| :: !Reports(ops[k], u) {
      } else {
        var i := LatestReportExists(ops, u);
      }
    }
    if s.groupMax != 0 {
      var i :| 0 <= i < |ops| && InScope(ops[i], Group(g)) && ops[i].height == s.groupMax;
      assert InScope(ops[i], Everyone);
    }
  }

  /** The store in its own form: one counter and three maps, updated in place by the consumer. */
  class ChainMetadataStore {
    var globalMaxHeight: UInt64
    var maxHeightByGroupID: map<string, UInt64>
    var heightByUpstreamID: map<string, UInt64>
    var errorByUpstreamID: map<string, Option<string>>

    ghost function State(): Memory
      reads this
    {
      Memory(globalMaxHeight, maxHeightByGroupID, heightByUpstreamID, errorByUpstreamID)
    }

    constructor ()
      ensures State() == EMPTY
    {
      globalMaxHeight := 0;
      maxHeightByGroupID, heightByUpstreamID, errorByUpstreamID := map[], map[], map[];
    }

    method UpdateHeightForGroup(groupID: string, currentBlockHeight: UInt64)
      modifies this`maxHeightByGroupID
      ensures maxHeightByGroupID ==
        old(maxHeightByGroupID)[groupID := Max(Lookup(old(maxHeightByGroupID), groupID, 0), currentBlockHeight)]
    {
      var groupMax := Lookup(maxHeightByGroupID, groupID, 0);
      maxHeightByGroupID := maxHeightByGroupID[groupID := Max(groupMax, currentBlockHeight)];
    }

    method UpdateHeightForUpstream(upstreamID: string, blockHeight: UInt64)
      modifies this`heightByUpstreamID
      ensures heightByUpstreamID == old(heightByUpstreamID)[upstreamID := blockHeight]
    {
      heightByUpstreamID := heightByUpstreamID[upstreamID := blockHeight];
    }

    method UpdateErrorForUpstream(upstreamID: string, err: Option<string>)
      modifies this`errorByUpstreamID
      ensures errorByUpstreamID == old(errorByUpstreamID)[upstreamID := err]
    {
      errorByUpstreamID := errorByUpstreamID[upstreamID := err];
    }

    /** The closure of `ProcessBlockHeightUpdate`. */
    method RunHeightUpdate(groupID: string, upstreamID: string, blockHeight: UInt64)
      modifies this
      ensures State() == Apply(old(State()), HeightUpdate(groupID, upstreamID, blockHeight))
    {
      ApplyEffect(State(), HeightUpdate(groupID, upstreamID, blockHeight));
      globalMaxHeight := Max(globalMaxHeight, blockHeight);
      UpdateHeightForGroup(groupID, blockHeight);
      UpdateHeightForUpstream(upstreamID, blockHeight);
      UpdateErrorForUpstream(upstreamID, None);
    }

    /** The closure of `ProcessErrorUpdate`. */
    method RunErrorUpdate(upstreamID: string, err: Option<string>)
      modifies this
      ensures State() == Apply(old(State()), ErrorUpdate(upstreamID, err))
    {
      ApplyEffect(State(), ErrorUpdate(upstreamID, err));
      UpdateErrorForUpstream(upstreamID, err);
    }

    /** The closure of `GetBlockHeightStatus`, up to the send of its reply. */
    method RunRead(groupID: string, upstreamID: string) returns (status: Status)
      ensures status == Answer(State(), groupID, upstreamID)
    {
      status := Status(
        Lookup(errorByUpstreamID, upstreamID, None),
        groupID,
        upstreamID,
        Lookup(heightByUpstreamID, upstreamID, 0),
        Lookup(maxHeightByGroupID, groupID, 0),
        globalMaxHeight);
    }

    /** The consumer loop of `Start`, over the closures the channel delivers one after another.
        Each reply describes exactly the closures delivered before it. */
    method Consume(ops: seq<Op>) returns (replies: seq<Option<Status>>)
      requires State() == EMPTY
      modifies this
      ensures State() == Fold(ops)
      ensures |replies| == |ops|
      ensures forall i | 0 <= i < |ops| :: replies[i].Some? <==> ops[i].Read?
      ensures forall i | 0 <= i < |ops| && ops[i].Read? ::
        Describes(replies[i].value, ops[..i], ops[i].groupID, ops[i].upstreamID)
    {
      replies := [];
      for n := 0 to |ops|
        invariant |replies| == n
        invariant State() == Fold(ops[..n])
        invariant forall i | 0 <= i < n :: replies[i] == ReplyTo(ops, i)
      {
        assert ops[..n + 1][..n] == ops[..n];
        match ops[n] {
          case HeightUpdate(g, u, h) =>
            RunHeightUpdate(g, u, h);
            replies := replies + [None];
          case ErrorUpdate(u, e) =>
            RunErrorUpdate(u, e);
            replies := replies + [None];
          case Read(g, u) =>
            ApplyEffect(State(), ops[n]);
            var status := RunRead(g, u);
            replies := replies + [Some(status)];
        }
      }
      assert ops[..|ops|] == ops;
      forall i | 0 <= i < |ops| && ops[i].Read?
        ensures Describes(replies[i].value, ops[..i], ops[i].groupID, ops[i].upstreamID)
      {
        AnswerMeaning(ops[..i], ops[i].groupID, ops[i].upstreamID);
      }
    }
  }
}
