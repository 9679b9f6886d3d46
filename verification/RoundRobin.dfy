/** Choosing a priority and, within it, an upstream by a shared counter. */
module RoundRobin {
  import opened Wrappers
  import opened Topology

  type PriorityMap = map<int, seq<UpstreamConfig>>

  /** `Panicked`: the code indexes its slice with a negative number. */
  datatype Outcome = Picked(id: string) | NoHealthyUpstreams | Panicked

  /** What a call returns and the counter it leaves. */
  datatype Decision = Decision(outcome: Outcome, counter: UInt64)

  /** `int(counter) % n` in Go: the counter is reinterpreted as signed, the remainder takes its sign. */
  function GoIndex(counter: UInt64, n: int): int
    requires n > 0
  {
    if counter < TWO_63 then counter % n else -((TWO_64 - counter) % n)
  }

  /** The index is in range exactly while the counter fits a signed integer, or when by luck the
      length divides it. */
  lemma IndexInRangeIff(counter: UInt64, n: int)
    requires n > 0
    ensures 0 <= GoIndex(counter, n) < n <==> counter < TWO_63 || (TWO_64 - counter) % n == 0
  {
  }

  ghost predicate IsBestPriority(m: PriorityMap, p: int) {
    && p in m && m[p] != []
    && forall q | q in m && m[q] != [] :: p <= q
  }

  predicate HasUpstream(m: PriorityMap) {
    exists p :: p in m && m[p] != []
  }

  /** The upstreams at the smallest priority number that has any. */
  ghost function BestList(m: PriorityMap): (list: seq<UpstreamConfig>)
    ensures list == [] <==> !HasUpstream(m)
    ensures forall p | IsBestPriority(m, p) :: list == m[p]
  {
    if HasUpstream(m) then
      BestPriorityExists(m);
      var p :| IsBestPriority(m, p);
      m[p]
    else []
  }

  lemma BestPriorityExists(m: PriorityMap)
    requires HasUpstream(m)
    ensures exists p :: IsBestPriority(m, p)
  {
    var ps := set p | p in m && m[p] != [];
    var q :| q in m && m[q] != [];
    assert q in ps;
    var p := SmallestOf(ps, q);
    assert forall r | r in m && m[r] != [] :: r in ps;
    assert IsBestPriority(m, p);
  }

  lemma EmptyOrMember(s: set<int>)
    ensures s == {} || exists x :: x in s
  {
    if forall x :: x !in s {
      assert s == {};
    }
  }

  lemma {:induction false} SmallestOf(s: set<int>, w: int) returns (x: int)
    requires w in s
    ensures x in s && forall y | y in s :: x <= y
    decreases |s|
  {
    if forall y | y in s :: w <= y {
      x := w;
    } else {
      var y :| y in s && y < w;
      x := SmallestOf(s - {w}, y);
      assert forall z | z in s && z != w :: z in s - {w};
    }
  }

  /** The upstream a counter value selects. */
  function Select(list: seq<UpstreamConfig>, counter: UInt64): Outcome
    requires list != []
  {
    var i := GoIndex(counter, |list|);
    if 0 <= i < |list| then Picked(list[i].id) else Panicked
  }

  ghost function Route(m: PriorityMap, counter: UInt64): Decision {
    var list := BestList(m);
    if list == [] then Decision(NoHealthyUpstreams, counter)
    else
      var next := (counter + 1) % TWO_64;
      Decision(Select(list, next), next)
  }

  /** Only a call that finds an upstream counts, and the counter wraps. */
  lemma CounterMeaning(m: PriorityMap, counter: UInt64)
    ensures !HasUpstream(m) ==> Route(m, counter) == Decision(NoHealthyUpstreams, counter)
    ensures HasUpstream(m) ==>
      && Route(m, counter).outcome != NoHealthyUpstreams
      && Route(m, counter).counter == if counter == TWO_64 - 1 then 0 else counter + 1
  {
  }

  /** The keys of a map in increasing order. */
  method SortedKeys(m: PriorityMap) returns (keys: seq<int>)
    ensures forall i, j | 0 <= i < j < |keys| :: keys[i] < keys[j]
    ensures forall p :: p in keys <==> p in m
  {
    keys := [];
    var left := m.Keys;
    while left != {}
      invariant forall i, j | 0 <= i < j < |keys| :: keys[i] < keys[j]
      invariant forall i, p | 0 <= i < |keys| && p in left :: keys[i] < p
      invariant forall p :: p in m <==> p in keys || p in left
      decreases |left|
    {
      EmptyOrMember(left);
      ghost var w :| w in left;
      ghost var x := SmallestOf(left, w);
      var p :| p in left && forall q | q in left :: p <= q;
      keys := keys + [p];
      left := left - {p};
    }
  }

  class PriorityRoundRobinStrategy {
    var counter: UInt64

    constructor ()
      ensures counter == 0
    {
      counter := 0;
    }

    method RouteNextRequest(m: PriorityMap) returns (outcome: Outcome)
      modifies this
      ensures Decision(outcome, counter) == Route(m, old(counter))
    {
      var prioritySorted := SortedKeys(m);
      for n := 0 to |prioritySorted|
        invariant counter == old(counter)
        invariant forall i | 0 <= i < n :: prioritySorted[i] in m && m[prioritySorted[i]] == []
      {
        var p := prioritySorted[n];
        assert p in m;
        var upstreams := m[p];
        if |upstreams| > 0 {
          counter := (counter + 1) % TWO_64;
          assert IsBestPriority(m, p);
          var i := GoIndex(counter, |upstreams|);
          if 0 <= i < |upstreams| {
            return Picked(upstreams[i].id);
          } else {
            return Panicked;
          }
        }
      }
      assert forall p | p in m :: p in prioritySorted;
      outcome := NoHealthyUpstreams;
    }
  }

  // ---- Fairness of sequential calls ----

  /** The index the i-th of several consecutive calls selects, from counter c. */
  function IndexOfCall(c: UInt64, i: nat, n: nat): nat
    requires n > 0
  {
    (c + 1 + i) % n
  }

  /** How many of the first `calls` calls select index r. */
  function Count(c: UInt64, calls: nat, n: nat, r: nat): nat
    requires n > 0
  {
    if calls == 0 then 0
    else Count(c, calls - 1, n, r) + if IndexOfCall(c, calls - 1, n) == r then 1 else 0
  }

  /** The decisions of consecutive calls over the same map. */
  ghost function Calls(m: PriorityMap, counter: UInt64, calls: nat): (decisions: seq<Decision>)
    ensures |decisions| == calls
  {
    if calls == 0 then []
    else
      var earlier := Calls(m, counter, calls - 1);
      earlier + [Route(m, if calls == 1 then counter else earlier[calls - 2].counter)]
  }

  lemma RouteBelow(m: PriorityMap, c: UInt64)
    requires HasUpstream(m) && c + 1 < TWO_63
    ensures var list := BestList(m); Route(m, c) == Decision(Picked(list[(c + 1) % |list|].id), c + 1)
  {
    IndexInRangeIff(c + 1, |BestList(m)|);
  }

  lemma {:induction false} CallsSelect(m: PriorityMap, c: UInt64, calls: nat, i: nat)
    requires HasUpstream(m) && c + calls < TWO_63 && i < calls
    ensures var list := BestList(m);
      Calls(m, c, calls)[i] == Decision(Picked(list[IndexOfCall(c, i, |list|)].id), c + 1 + i)
  {
    if i < calls - 1 {
      CallsSelect(m, c, calls - 1, i);
    } else {
      if calls > 1 {
        CallsSelect(m, c, calls - 1, i - 1);
      }
      RouteBelow(m, c + i);
    }
  }

  /** Consecutive remainders differ until a whole turn is made. */
  lemma RemainderStep(x: nat, d: nat, n: nat)
    requires 0 < d < n
    ensures (x + d) % n != x % n
  {
    var q, r := x / n, x % n;
    assert x + d == q * n + (r + d);
    if r + d < n {
      RemainderUnique(x + d, q, r + d, n);
    } else {
      assert x + d == (q + 1) * n + (r + d - n);
      RemainderUnique(x + d, q + 1, r + d - n, n);
    }
  }

  lemma ProductGap(a: int, b: int, n: nat)
    requires a < b
    ensures a * n + n <= b * n
  {
    var d := b - a - 1;
    assert b == a + 1 + d;
    assert (a + 1 + d) * n == a * n + n + d * n;
    assert d * n >= 0;
  }

  lemma RemainderUnique(x: nat, q: nat, r: nat, n: nat)
    requires n > 0 && x == q * n + r && r < n
    ensures x % n == r && x / n == q
  {
    var q' := x / n;
    assert x == q' * n + x % n;
    if q > q' {
      ProductGap(q', q, n);
    } else if q < q' {
      ProductGap(q, q', n);
    }
  }

  lemma SameRemainder(x: nat, n: nat)
    requires n > 0
    ensures (x + n) % n == x % n
  {
    RemainderUnique(x + n, x / n + 1, x % n, n);
  }

  lemma {:induction false} CountOfFewCalls(c: UInt64, calls: nat, n: nat, r: nat)
    requires n > 0 && calls <= n
    ensures Count(c, calls, n, r) <= 1
    ensures Count(c, calls, n, r) == 1 ==> exists i: nat :: i < calls && IndexOfCall(c, i, n) == r
  {
    if calls > 0 {
      CountOfFewCalls(c, calls - 1, n, r);
      if IndexOfCall(c, calls - 1, n) == r {
        if Count(c, calls - 1, n, r) == 1 {
          var i: nat :| i < calls - 1 && IndexOfCall(c, i, n) == r;
          assert c + 1 + i + (calls - 1 - i) == c + calls;
          RemainderStep(c + 1 + i, calls - 1 - i, n);
        }
      }
    }
  }

  /** Any n consecutive calls select index r. */
  lemma SomeCallSelects(c: UInt64, n: nat, r: nat) returns (i: nat)
    requires r < n
    ensures i < n && IndexOfCall(c, i, n) == r
  {
    var s := (c + 1) % n;
    var q := (c + 1) / n;
    i := if r >= s then r - s else r + n - s;
    if r >= s {
      RemainderUnique(c + 1 + i, q, r, n);
    } else {
      assert c + 1 + i == (q + 1) * n + r;
      RemainderUnique(c + 1 + i, q + 1, r, n);
    }
  }

  lemma {:induction false} CountAtLeastOne(c: UInt64, calls: nat, n: nat, r: nat, i: nat)
    requires n > 0 && i < calls && IndexOfCall(c, i, n) == r
    ensures Count(c, calls, n, r) >= 1
    decreases calls
  {
    if i < calls - 1 {
      CountAtLeastOne(c, calls - 1, n, r, i);
    }
  }

  lemma {:induction false} CountOfMoreCalls(c: UInt64, calls: nat, n: nat, r: nat)
    requires r < n
    ensures Count(c, calls + n, n, r) == Count(c, calls, n, r) + 1
  {
    if calls == 0 {
      var i := SomeCallSelects(c, n, r);
      CountAtLeastOne(c, n, n, r, i);
      CountOfFewCalls(c, n, n, r);
    } else {
      CountOfMoreCalls(c, calls - 1, n, r);
      SameRemainder(c + calls, n);
      assert IndexOfCall(c, calls + n - 1, n) == IndexOfCall(c, calls - 1, n);
    }
  }

  lemma OneTurnLess(calls: nat, n: nat)
    requires 0 < n <= calls
    ensures calls / n == (calls - n) / n + 1
  {
    RemainderUnique(calls, (calls - n) / n + 1, (calls - n) % n, n);
  }

  lemma {:induction false} CountBetween(c: UInt64, calls: nat, n: nat, r: nat)
    requires r < n
    ensures calls / n <= Count(c, calls, n, r) <= calls / n + 1
  {
    if calls < n {
      CountOfFewCalls(c, calls, n, r);
      RemainderUnique(calls, 0, calls, n);
    } else {
      CountBetween(c, calls - n, n, r);
      CountOfMoreCalls(c, calls - n, n, r);
      OneTurnLess(calls, n);
    }
  }

  /** Fairness: over any n consecutive calls each of the n upstreams is selected exactly once,
      and over any number of calls two upstreams' shares differ by at most one. */
  lemma Fair(c: UInt64, calls: nat, n: nat, r1: nat, r2: nat)
    requires r1 < n && r2 < n
    ensures Count(c, n, n, r1) == 1
    ensures Count(c, calls, n, r1) <= Count(c, calls, n, r2) + 1
  {
    CountOfMoreCalls(c, 0, n, r1);
    CountBetween(c, calls, n, r1);
    CountBetween(c, calls, n, r2);
  }

  /** The same said of upstream IDs and of real calls. */
  function Share(decisions: seq<Decision>, id: string): nat {
    if decisions == [] then 0
    else
      Share(decisions[..|decisions| - 1], id)
      + if decisions[|decisions| - 1].outcome == Picked(id) then 1 else 0
  }

  lemma LastShare(m: PriorityMap, c: UInt64, calls: nat, id: string)
    requires calls > 0
    ensures Share(Calls(m, c, calls), id)
      == Share(Calls(m, c, calls - 1), id) + if Calls(m, c, calls)[calls - 1].outcome == Picked(id) then 1 else 0
  {
    assert Calls(m, c, calls)[..calls - 1] == Calls(m, c, calls - 1);
  }

  lemma IDsTellApart(list: seq<UpstreamConfig>, k: nat, r: nat)
    requires DistinctUpstreams(list) && k < |list| && r < |list|
    ensures Picked(list[k].id) == Picked(list[r].id) <==> k == r
  {
  }

  lemma {:induction false} ShareIsCount(m: PriorityMap, c: UInt64, calls: nat, r: nat)
    requires HasUpstream(m) && c + calls < TWO_63
    requires r < |BestList(m)| && DistinctUpstreams(BestList(m))
    ensures Share(Calls(m, c, calls), BestList(m)[r].id) == Count(c, calls, |BestList(m)|, r)
  {
    if calls > 0 {
      ShareIsCount(m, c, calls - 1, r);
      CallsSelect(m, c, calls, calls - 1);
      LastShare(m, c, calls, BestList(m)[r].id);
      IDsTellApart(BestList(m), IndexOfCall(c, calls - 1, |BestList(m)|), r);
    }
  }

  lemma CallsAreFair(m: PriorityMap, c: UInt64, calls: nat, r1: nat, r2: nat)
    requires HasUpstream(m) && DistinctUpstreams(BestList(m)) && c + calls < TWO_63
    requires r1 < |BestList(m)| && r2 < |BestList(m)|
    ensures var list := BestList(m); var decisions := Calls(m, c, calls);
      && Share(decisions, list[r1].id) <= Share(decisions, list[r2].id) + 1
      && (calls == |list| ==> Share(decisions, list[r1].id) == 1)
  {
    ShareIsCount(m, c, calls, r1);
    ShareIsCount(m, c, calls, r2);
    Fair(c, calls, |BestList(m)|, r1, r2);
  }

  // ---- Concurrent calls ----

  /** Between the atomic increment and the later read of the counter other calls may run. */
  datatype CallPc = Incremented(ticket: nat) | Done(ticket: nat, value: nat)

  datatype Counter = Counter(counter: nat, calls: seq<CallPc>)

  datatype CounterStep = Increment | ReadBack(call: nat)

  predicate CanStep(s: Counter, step: CounterStep) {
    step.ReadBack? ==> step.call < |s.calls| && s.calls[step.call].Incremented?
  }

  function TakeStep(s: Counter, step: CounterStep): Counter
    requires CanStep(s, step)
  {
    match step
    case Increment => Counter(s.counter + 1, s.calls + [Incremented(s.counter + 1)])
    case ReadBack(c) => s.(calls := s.calls[c := Done(s.calls[c].ticket, s.counter)])
  }

  ghost predicate IsCounterRun(states: seq<Counter>, steps: seq<CounterStep>) {
    && |states| == |steps| + 1
    && states[0] == Counter(0, [])
    && forall i | 0 <= i < |steps| :: CanStep(states[i], steps[i]) && states[i + 1] == TakeStep(states[i], steps[i])
  }

  /** In every interleaving: the counter is the number of increments, tickets are all different,
      a call reads at least its own ticket and never more than the increments made; so below
      2^63 every index is in bounds. */
  lemma {:induction false} ConcurrentCallsInRange(states: seq<Counter>, steps: seq<CounterStep>, i: nat, n: nat)
    requires IsCounterRun(states, steps) && i < |states| && n > 0
    ensures var s := states[i];
      && s.counter == |s.calls|
      && (forall k | 0 <= k < |s.calls| :: s.calls[k].ticket == k + 1)
      && (forall k | 0 <= k < |s.calls| && s.calls[k].Done? ::
            && s.calls[k].ticket <= s.calls[k].value <= s.counter
            && (s.counter < TWO_63 ==> 0 <= GoIndex(s.calls[k].value, n) < n))
  {
    if i > 0 {
      ConcurrentCallsInRange(states, steps, i - 1, n);
    }
  }

  /** How many calls have incremented the counter in these steps. */
  function Increments(steps: seq<CounterStep>): nat {
    if steps == [] then 0
    else Increments(steps[..|steps| - 1]) + if steps[|steps| - 1].Increment? then 1 else 0
  }

  lemma {:induction false} CounterGrows(states: seq<Counter>, steps: seq<CounterStep>, i: nat, j: nat)
    requires IsCounterRun(states, steps) && i <= j < |states|
    ensures states[j].counter == states[i].counter + Increments(steps[i..j])
    decreases j
  {
    if i < j {
      CounterGrows(states, steps, i, j - 1);
      assert steps[i..j][..j - 1 - i] == steps[i..j - 1];
    }
  }

  lemma {:induction false} TicketStays(states: seq<Counter>, steps: seq<CounterStep>, i: nat, j: nat, call: nat)
    requires IsCounterRun(states, steps) && i <= j < |states| && call < |states[i].calls|
    ensures call < |states[j].calls| && states[j].calls[call].ticket == states[i].calls[call].ticket
    decreases j
  {
    if i < j {
      TicketStays(states, steps, i, j - 1, call);
    }
  }

  /** A call reads its own ticket plus the number of calls that incremented the counter between its
      increment and its read; so its own ticket exactly when there was none. */
  lemma ReadsOwnTicketIff(states: seq<Counter>, steps: seq<CounterStep>, i: nat, j: nat, call: nat)
    requires IsCounterRun(states, steps) && i < j < |steps|
    requires steps[i] == Increment && |states[i].calls| == call && steps[j] == ReadBack(call)
    ensures call < |states[j + 1].calls| && states[j + 1].calls[call].Done?
    ensures var Done(ticket, value) := states[j + 1].calls[call];
      && ticket == states[i].counter + 1
      && value == ticket + Increments(steps[i + 1..j])
      && (value == ticket <==> forall k | i < k < j :: steps[k] != Increment)
  {
    TicketStays(states, steps, i + 1, j, call);
    CounterGrows(states, steps, i + 1, j);
    NoIncrementsIff(steps[i + 1..j]);
    if forall k | i < k < j :: steps[k] != Increment {
    } else {
      var k :| i < k < j && steps[k] == Increment;
      assert steps[i + 1..j][k - i - 1] == Increment;
    }
  }

  lemma {:induction false} NoIncrementsIff(steps: seq<CounterStep>)
    ensures Increments(steps) == 0 <==> forall k | 0 <= k < |steps| :: steps[k] != Increment
  {
    if steps != [] {
      NoIncrementsIff(steps[..|steps| - 1]);
      assert forall k | 0 <= k < |steps| - 1 :: steps[..|steps| - 1][k] == steps[k];
    }
  }

  /** Concurrent calls need not take turns: two calls can read the same value, and then select
      the same upstream. */
  lemma ConcurrentCallsCanCollide() returns (states: seq<Counter>, steps: seq<CounterStep>)
    ensures IsCounterRun(states, steps) && |states| == 5
    ensures states[4].calls == [Done(1, 2), Done(2, 2)]
  {
    steps := [Increment, Increment, ReadBack(0), ReadBack(1)];
    var s1 := TakeStep(Counter(0, []), steps[0]);
    var s2 := TakeStep(s1, steps[1]);
    var s3 := TakeStep(s2, steps[2]);
    var s4 := TakeStep(s3, steps[3]);
    states := [Counter(0, []), s1, s2, s3, s4];
  }
}
