/** The two block-height filters, and when they leave an upstream to route to. */
module HeightFilters {
  import opened Wrappers
  import opened ChainStore
  import opened StoreProtocol

  const DEFAULT_MAX_BLOCKS_BEHIND := 10

  /** Go's conversion from `int` to `uint64`. */
  function ToUInt64(i: int): UInt64 {
    i % TWO_64
  }

  /** Go's `uint64` addition. */
  function AddUInt64(a: UInt64, b: UInt64): UInt64 {
    (a + b) % TWO_64
  }

  function MaxBlocksBehind(configured: int): UInt64 {
    ToUInt64(if configured != 0 then configured else DEFAULT_MAX_BLOCKS_BEHIND)
  }

  predicate IsCloseToGlobalMax(s: Status, maxBlocksBehind: UInt64) {
    s.error == None && AddUInt64(s.height, maxBlocksBehind) >= s.globalMax
  }

  predicate IsAtMaxForGroup(s: Status, numUpstreamsInPriorityGroup: nat) {
    s.error == None && (numUpstreamsInPriorityGroup == 1 || s.height >= s.groupMax)
  }

  /** The sum in the filter wraps. The verdict is the intended one, "at most maxBlocksBehind
      blocks behind", exactly when the sum does not wrap. */
  lemma CloseIsAsIntendedIffNoWrap(s: Status, maxBlocksBehind: UInt64)
    requires s.error == None && s.height <= s.globalMax
    ensures (IsCloseToGlobalMax(s, maxBlocksBehind) <==> s.globalMax - s.height <= maxBlocksBehind)
      <==> s.height + maxBlocksBehind < TWO_64
  {
    var sum := s.height + maxBlocksBehind;
    if sum < TWO_64 {
      assert AddUInt64(s.height, maxBlocksBehind) == sum;
    } else {
      assert AddUInt64(s.height, maxBlocksBehind) == sum - TWO_64 < s.height;
    }
  }

  /** An ordinary setting is how far behind an upstream may be; without one it is ten blocks. */
  lemma SettingMeaning(s: Status, configured: int)
    requires 0 <= configured < TWO_64 && s.height <= s.globalMax
    requires s.height + configured < TWO_64 && s.height + 10 < TWO_64
    ensures IsCloseToGlobalMax(s, MaxBlocksBehind(configured))
      <==> s.error == None && s.globalMax - s.height <= if configured == 0 then 10 else configured
  {
    if s.error == None {
      CloseIsAsIntendedIffNoWrap(s, MaxBlocksBehind(configured));
    }
  }

  /** A negative setting -a becomes the huge 2^64 - a: an upstream passes exactly when it has no
      error, has reported fewer than a blocks and is at most that huge number behind. */
  lemma NegativeSettingPassesIff(s: Status, configured: int)
    requires configured < 0 && -configured <= TWO_63 && s.height <= s.globalMax
    ensures IsCloseToGlobalMax(s, MaxBlocksBehind(configured))
      <==> s.error == None && s.height < -configured && s.globalMax - s.height <= TWO_64 + configured
  {
    assert MaxBlocksBehind(configured) == TWO_64 + configured;
    if s.error == None {
      CloseIsAsIntendedIffNoWrap(s, MaxBlocksBehind(configured));
    }
    if s.height >= -configured {
      assert AddUInt64(s.height, MaxBlocksBehind(configured)) == s.height + configured < s.height;
    }
  }

  /** Only configured upstreams report, each for its own group. */
  ghost predicate ReportsFrom(ops: seq<Op>, groups: map<string, string>) {
    forall i | 0 <= i < |ops| && ops[i].HeightUpdate? ::
      ops[i].upstreamID in groups && ops[i].groupID == groups[ops[i].upstreamID]
  }

  /** Whatever touched u last did not set an error. */
  ghost predicate HasNoError(ops: seq<Op>, u: string) {
    forall i | IsLatestTouch(ops, u, i) :: ErrorSetBy(ops[i]) == None
  }

  /** No upstream has an error at the moment; earlier ones may have been cleared. */
  ghost predicate ErrorFree(ops: seq<Op>, groups: map<string, string>) {
    forall u | u in groups :: HasNoError(ops, u)
  }

  ghost predicate NeverGoesDown(ops: seq<Op>) {
    forall i, j | 0 <= i < j < |ops| && ops[i].HeightUpdate? && Reports(ops[j], ops[i].upstreamID) ::
      ops[i].height <= ops[j].height
  }

  lemma {:induction false} LatestTouchExists(ops: seq<Op>, u: string) returns (i: int)
    requires exists k :: 0 <= k < |ops| && Touches(ops[k], u)
    ensures IsLatestTouch(ops, u, i)
  {
    var n := |ops| - 1;
    if Touches(ops[n], u) {
      i := n;
    } else {
      var k :| 0 <= k < |ops| && Touches(ops[k], u);
      assert ops[..n][k] == ops[k];
      i := LatestTouchExists(ops[..n], u);
      assert IsLatestTouch(ops, u, i);
    }
  }

  lemma ErrorIsNoneIff(ops: seq<Op>, u: string)
    ensures Lookup(Fold(ops).errors, u, None) == None <==> HasNoError(ops, u)
  {
    FoldError(ops, u);
    if exists k :: 0 <= k < |ops| && Touches(ops[k], u) {
      var i := LatestTouchExists(ops, u);
    }
  }

  /** While no upstream's own height goes down, whoever holds the global maximum still reports it. */
  lemma SomeoneHoldsMaximum(ops: seq<Op>, groups: map<string, string>) returns (u: string)
    requires groups != map[] && ReportsFrom(ops, groups) && NeverGoesDown(ops)
    ensures u in groups
    ensures var s := Answer(Fold(ops), groups[u], u); s.height == s.groupMax == s.globalMax
  {
    FoldMaximum(ops, Everyone);
    var top := Fold(ops).globalMax;
    if top == 0 {
      u :| u in groups;
      HeightsBelowMaxima(ops, groups[u], u);
    } else {
      var i :| 0 <= i < |ops| && InScope(ops[i], Everyone) && ops[i].height == top;
      u := ops[i].upstreamID;
      var j := LatestReportExists(ops, u);
      assert ops[i].height <= ops[j].height;
      FoldHeight(ops, u);
      HeightsBelowMaxima(ops, groups[u], u);
    }
  }

  /** If moreover none has an error, both filters pass that upstream, however many upstreams share
      its priority. */
  lemma SomeUpstreamPasses(ops: seq<Op>, groups: map<string, string>, maxBlocksBehind: UInt64) returns (u: string)
    requires groups != map[]
    requires ReportsFrom(ops, groups) && ErrorFree(ops, groups) && NeverGoesDown(ops)
    requires Fold(ops).globalMax + maxBlocksBehind < TWO_64
    ensures u in groups
    ensures var s := Answer(Fold(ops), groups[u], u);
      && IsCloseToGlobalMax(s, maxBlocksBehind)
      && forall n: nat :: IsAtMaxForGroup(s, n)
  {
    u := SomeoneHoldsMaximum(ops, groups);
    ErrorIsNoneIff(ops, u);
  }

  /** No report is higher than the latest one of u by more than d, or than d if u has made none. */
  ghost predicate IsWithin(ops: seq<Op>, scope: Scope, u: string, d: nat) {
    forall k | 0 <= k < |ops| && InScope(ops[k], scope) ::
      ops[k].height <= d || exists i :: IsLatestReport(ops, u, i) && ops[k].height <= ops[i].height + d
  }

  lemma WithinIff(ops: seq<Op>, scope: Scope, u: string, d: nat)
    ensures MaxOf(Fold(ops), scope) <= Lookup(Fold(ops).heights, u, 0) + d <==> IsWithin(ops, scope, u, d)
  {
    FoldMaximum(ops, scope);
    FoldHeight(ops, u);
    var top, height := MaxOf(Fold(ops), scope), Lookup(Fold(ops).heights, u, 0);
    if exists k :: 0 <= k < |ops| && Reports(ops[k], u) {
      var i := LatestReportExists(ops, u);
      assert forall j | IsLatestReport(ops, u, j) :: ops[j].height == height;
    } else {
      assert forall i :: !IsLatestReport(ops, u, i);
    }
    if top != 0 {
      var k :| 0 <= k < |ops| && InScope(ops[k], scope) && ops[k].height == top;
    }
  }

  /** Both verdicts at one moment, told from the reports alone, for any history: heights may go down
      and errors may come and go. */
  ghost predicate DeservesToPass(ops: seq<Op>, g: string, u: string, maxBlocksBehind: UInt64, n: nat) {
    && HasNoError(ops, u)
    && (n == 1 || IsWithin(ops, Group(g), u, 0))
    && IsWithin(ops, Everyone, u, maxBlocksBehind)
  }

  lemma PassesIff(ops: seq<Op>, g: string, u: string, maxBlocksBehind: UInt64, n: nat)
    requires Fold(ops).globalMax + maxBlocksBehind < TWO_64
    ensures var s := Answer(Fold(ops), g, u);
      IsAtMaxForGroup(s, n) && IsCloseToGlobalMax(s, maxBlocksBehind) <==> DeservesToPass(ops, g, u, maxBlocksBehind, n)
  {
    AtMaxIff(ops, g, u, n);
    NearIff(ops, g, u, maxBlocksBehind);
  }

  lemma AtMaxIff(ops: seq<Op>, g: string, u: string, n: nat)
    ensures IsAtMaxForGroup(Answer(Fold(ops), g, u), n)
      <==> HasNoError(ops, u) && (n == 1 || IsWithin(ops, Group(g), u, 0))
  {
    ErrorIsNoneIff(ops, u);
    WithinIff(ops, Group(g), u, 0);
    assert MaxOf(Fold(ops), Group(g)) == Answer(Fold(ops), g, u).groupMax;
  }

  lemma NearIff(ops: seq<Op>, g: string, u: string, maxBlocksBehind: UInt64)
    requires Fold(ops).globalMax + maxBlocksBehind < TWO_64
    ensures IsCloseToGlobalMax(Answer(Fold(ops), g, u), maxBlocksBehind)
      <==> HasNoError(ops, u) && IsWithin(ops, Everyone, u, maxBlocksBehind)
  {
    ErrorIsNoneIff(ops, u);
    HeightBelowGlobalMax(ops, u);
    WithinIff(ops, Everyone, u, maxBlocksBehind);
    SumDoesNotWrap(Answer(Fold(ops), g, u), maxBlocksBehind);
  }

  lemma SumDoesNotWrap(s: Status, maxBlocksBehind: UInt64)
    requires s.height <= s.globalMax && s.globalMax + maxBlocksBehind < TWO_64
    ensures IsCloseToGlobalMax(s, maxBlocksBehind) <==> s.error == None && s.globalMax <= s.height + maxBlocksBehind
  {
  }

  lemma HeightBelowGlobalMax(ops: seq<Op>, u: string)
    ensures Lookup(Fold(ops).heights, u, 0) <= Fold(ops).globalMax
  {
    FoldMaximum(ops, Everyone);
    FoldHeight(ops, u);
    if exists k :: 0 <= k < |ops| && Reports(ops[k], u) {
      var i := LatestReportExists(ops, u);
      assert InScope(ops[i], Everyone);
    }
  }

  /** Somebody is at the group's maximum exactly when somebody without an error has a latest report
      that is not below any the group has ever made. */
  lemma SomeoneAtGroupMaxIff(ops: seq<Op>, groups: map<string, string>, g: string, n: nat)
    requires n != 1
    ensures (exists u :: u in groups && groups[u] == g && IsAtMaxForGroup(Answer(Fold(ops), g, u), n)) <==>
      exists u :: u in groups && groups[u] == g && HasNoError(ops, u) && IsWithin(ops, Group(g), u, 0)
  {
    forall u | u in groups && groups[u] == g
      ensures IsAtMaxForGroup(Answer(Fold(ops), g, u), n) <==> HasNoError(ops, u) && IsWithin(ops, Group(g), u, 0)
    {
      AtMaxIff(ops, g, u, n);
    }
  }

  /** For example: one upstream travels back, and nobody is at the group's maximum any more. */
  lemma GoingBackRejectsEveryone()
    ensures var ops := [HeightUpdate("g", "a", 10), HeightUpdate("g", "a", 5), HeightUpdate("g", "b", 3)];
      && ReportsFrom(ops, map["a" := "g", "b" := "g"]) && ErrorFree(ops, map["a" := "g", "b" := "g"])
      && !IsAtMaxForGroup(Answer(Fold(ops), "g", "a"), 2)
      && !IsAtMaxForGroup(Answer(Fold(ops), "g", "b"), 2)
  {
    var o1, o2, o3 := HeightUpdate("g", "a", 10), HeightUpdate("g", "a", 5), HeightUpdate("g", "b", 3);
    var ops := [o1, o2, o3];
    assert ops[..2] == [o1, o2] && [o1, o2][..1] == [o1] && [o1][..0] == [];
    ApplyEffect(EMPTY, o1);
    ApplyEffect(Fold([o1]), o2);
    ApplyEffect(Fold([o1, o2]), o3);
    assert Fold([o1]) == Apply(EMPTY, o1);
    assert Fold([o1]).groupMax["g"] == 10 && Fold([o1, o2]).groupMax["g"] == 10;
    assert Fold(ops).heights["a"] == 5;
  }

  // ---- Separate reads ----

  /** What the two filters make of an upstream. The group filter asks first, after a closures; the
      global one, if it is asked at all, after b. n is the number of upstreams sharing the priority. */
  ghost predicate PassesWhenAsked(ops: seq<Op>, g: string, u: string, maxBlocksBehind: UInt64, n: nat, a: nat, b: nat)
    requires a <= |ops| && b <= |ops|
  {
    && IsAtMaxForGroup(Answer(Fold(ops[..a]), g, u), n)
    && IsCloseToGlobalMax(Answer(Fold(ops[..b]), g, u), maxBlocksBehind)
  }

  /** Neither a height nor an error is reported from the lo-th closure up to the hi-th. */
  ghost predicate Quiet(ops: seq<Op>, lo: nat, hi: nat)
    requires lo <= hi <= |ops|
  {
    forall k | lo <= k < hi :: !ops[k].HeightUpdate? && (ops[k].ErrorUpdate? ==> ops[k].error == None)
  }

  lemma {:induction false} QuietAnswer(ops: seq<Op>, lo: nat, hi: nat, g: string, u: string)
    requires lo <= hi <= |ops| && Quiet(ops, lo, hi) && HasNoError(ops[..lo], u)
    ensures Answer(Fold(ops[..hi]), g, u) == Answer(Fold(ops[..lo]), g, u)
  {
    if lo < hi {
      QuietAnswer(ops, lo, hi - 1, g, u);
      ErrorIsNoneIff(ops[..lo], u);
      assert ops[..hi][..hi - 1] == ops[..hi - 1];
      ApplyEffect(Fold(ops[..hi - 1]), ops[hi - 1]);
    }
  }

  /** The filters ask the store one question at a time. As long as nothing is reported between the
      first question and the last, some upstream passes, whenever in between each is answered. */
  lemma QuietReadsLeaveSomeone(
      ops: seq<Op>, groups: map<string, string>, maxBlocksBehind: UInt64, lo: nat, hi: nat)
    returns (u: string)
    requires groups != map[] && lo <= hi <= |ops| && Quiet(ops, lo, hi)
    requires ReportsFrom(ops[..lo], groups) && ErrorFree(ops[..lo], groups) && NeverGoesDown(ops[..lo])
    requires Fold(ops[..lo]).globalMax + maxBlocksBehind < TWO_64
    ensures u in groups
    ensures forall a, b, n: nat | lo <= a <= hi && lo <= b <= hi ::
      PassesWhenAsked(ops, groups[u], u, maxBlocksBehind, n, a, b)
  {
    u := SomeUpstreamPasses(ops[..lo], groups, maxBlocksBehind);
    forall a, b, n: nat | lo <= a <= hi && lo <= b <= hi
      ensures PassesWhenAsked(ops, groups[u], u, maxBlocksBehind, n, a, b)
    {
      QuietAnswer(ops, lo, a, groups[u], u);
      QuietAnswer(ops, lo, b, groups[u], u);
    }
  }

  /** When each upstream's two questions are answered, both within a window. */
  ghost predicate IsSchedule(times: map<string, (nat, nat)>, groups: map<string, string>, lo: nat, hi: nat) {
    forall u | u in groups :: u in times && lo <= times[u].0 <= times[u].1 <= hi
  }

  ghost predicate SomeonePasses(
      ops: seq<Op>, groups: map<string, string>, maxBlocksBehind: UInt64, count: string -> nat,
      times: map<string, (nat, nat)>, hi: nat)
    requires hi <= |ops| && IsSchedule(times, groups, 0, hi)
  {
    exists u :: u in groups
      && PassesWhenAsked(ops, groups[u], u, maxBlocksBehind, count(u), times[u].0, times[u].1)
  }

  /** An upstream that passes throughout a window. */
  ghost predicate PassesThroughout(
      ops: seq<Op>, g: string, u: string, maxBlocksBehind: UInt64, n: nat, lo: nat, hi: nat)
    requires hi <= |ops|
  {
    forall t: nat | lo <= t <= hi :: PassesWhenAsked(ops, g, u, maxBlocksBehind, n, t, t)
  }

  /** If the upstreams may be asked in any order: every timing of the questions within a window leaves
      some upstream if and only if one upstream passes throughout. For a pass in a given order this is
      sufficient but not necessary; `PassRejectsEveryoneIff` is the exact condition for that. */
  lemma EveryScheduleLeavesSomeoneIff(
      ops: seq<Op>, groups: map<string, string>, maxBlocksBehind: UInt64, count: string -> nat, lo: nat, hi: nat)
    requires lo <= hi <= |ops|
    ensures (forall times | IsSchedule(times, groups, 0, hi) && IsSchedule(times, groups, lo, hi) ::
               SomeonePasses(ops, groups, maxBlocksBehind, count, times, hi))
      <==> exists u :: u in groups && PassesThroughout(ops, groups[u], u, maxBlocksBehind, count(u), lo, hi)
  {
    if u :| u in groups && PassesThroughout(ops, groups[u], u, maxBlocksBehind, count(u), lo, hi) {
      forall times | IsSchedule(times, groups, 0, hi) && IsSchedule(times, groups, lo, hi)
        ensures SomeonePasses(ops, groups, maxBlocksBehind, count, times, hi)
      {
        var (a, b) := times[u];
        assert PassesWhenAsked(ops, groups[u], u, maxBlocksBehind, count(u), a, a);
        assert PassesWhenAsked(ops, groups[u], u, maxBlocksBehind, count(u), b, b);
        assert PassesWhenAsked(ops, groups[u], u, maxBlocksBehind, count(u), a, b);
      }
    } else {
      var times := map u | u in groups :: FailingTime(ops, groups[u], u, maxBlocksBehind, count(u), lo, hi);
      assert IsSchedule(times, groups, 0, hi) && IsSchedule(times, groups, lo, hi);
      assert !SomeonePasses(ops, groups, maxBlocksBehind, count, times, hi);
    }
  }

  ghost function FailingTime(
      ops: seq<Op>, g: string, u: string, maxBlocksBehind: UInt64, n: nat, lo: nat, hi: nat): (t: (nat, nat))
    requires hi <= |ops| && !PassesThroughout(ops, g, u, maxBlocksBehind, n, lo, hi)
    ensures lo <= t.0 == t.1 <= hi && !PassesWhenAsked(ops, g, u, maxBlocksBehind, n, t.0, t.1)
  {
    var t: nat :| lo <= t <= hi && !PassesWhenAsked(ops, g, u, maxBlocksBehind, n, t, t);
    (t, t)
  }

  // ---- Passes in listed order ----

  /** What a filter says about the i-th of the listed upstreams if it asks at time t. */
  type Verdicts = (nat, nat) -> bool

  /** When each of n listed upstreams is asked its two questions. A pass takes the upstreams one after
      another, so time never goes back. */
  ghost predicate IsPass(visits: seq<(nat, nat)>, n: nat, lo: nat, hi: nat) {
    && |visits| == n
    && (forall i | 0 <= i < n :: lo <= visits[i].0 <= visits[i].1 <= hi)
    && forall i, j | 0 <= i < j < n :: visits[i].1 <= visits[j].0
  }

  ghost predicate RejectsAll(first: Verdicts, second: Verdicts, visits: seq<(nat, nat)>) {
    forall i: nat | i < |visits| :: !(first(i, visits[i].0) && second(i, visits[i].1))
  }

  /** The first time from `from` on at which one of the filters refuses the i-th upstream; after the
      window if there is none. */
  ghost function FirstRefusal(first: Verdicts, second: Verdicts, i: nat, from: nat, hi: nat): (t: nat)
    ensures from <= t
    ensures t <= hi ==> !(first(i, t) && second(i, t))
    ensures forall t': nat | from <= t' <= hi && t' < t :: first(i, t') && second(i, t')
    decreases hi - from
  {
    if from > hi || !(first(i, from) && second(i, from)) then from else FirstRefusal(first, second, i, from + 1, hi)
  }

  /** How soon a pass from lo on can have had the first n upstreams refused, one after another: each
      is asked as early as it will be refused. */
  ghost function EarliestPass(first: Verdicts, second: Verdicts, n: nat, lo: nat, hi: nat): (t: nat)
    ensures lo <= t
  {
    if n == 0 then lo else FirstRefusal(first, second, n - 1, EarliestPass(first, second, n - 1, lo, hi), hi)
  }

  /** A rejecting pass takes at least that long. */
  lemma {:induction false} NoPassIsEarlier(
      first: Verdicts, second: Verdicts, visits: seq<(nat, nat)>, n: nat, lo: nat, hi: nat, k: nat)
    requires IsPass(visits, n, lo, hi) && RejectsAll(first, second, visits) && k < n
    ensures EarliestPass(first, second, k + 1, lo, hi) <= visits[k].1
  {
    if k > 0 {
      NoPassIsEarlier(first, second, visits, n, lo, hi, k - 1);
      assert visits[k - 1].1 <= visits[k].0;
    }
    assert !(first(k, visits[k].0) && second(k, visits[k].1));
    var t := if first(k, visits[k].0) then visits[k].1 else visits[k].0;
    assert !(first(k, t) && second(k, t));
  }

  /** And one takes just that long. */
  lemma {:induction false} EarliestPassIsPass(first: Verdicts, second: Verdicts, n: nat, lo: nat, hi: nat)
    returns (visits: seq<(nat, nat)>)
    requires EarliestPass(first, second, n, lo, hi) <= hi
    ensures IsPass(visits, n, lo, hi) && RejectsAll(first, second, visits)
    ensures n > 0 ==> visits[n - 1].1 == EarliestPass(first, second, n, lo, hi)
  {
    if n == 0 {
      visits := [];
    } else {
      var t := EarliestPass(first, second, n, lo, hi);
      visits := EarliestPassIsPass(first, second, n - 1, lo, hi);
      visits := visits + [(t, t)];
    }
  }

  lemma RejectingPassIff(first: Verdicts, second: Verdicts, n: nat, lo: nat, hi: nat)
    requires lo <= hi
    ensures (exists visits :: IsPass(visits, n, lo, hi) && RejectsAll(first, second, visits))
      <==> EarliestPass(first, second, n, lo, hi) <= hi
  {
    if visits :| IsPass(visits, n, lo, hi) && RejectsAll(first, second, visits) {
      if n > 0 {
        NoPassIsEarlier(first, second, visits, n, lo, hi, n - 1);
      }
    }
    if EarliestPass(first, second, n, lo, hi) <= hi {
      var visits := EarliestPassIsPass(first, second, n, lo, hi);
    }
  }

  /** The group filter's verdicts on listed upstreams over a history. */
  ghost function GroupVerdicts(
      ops: seq<Op>, groups: map<string, string>, order: seq<string>, count: string -> nat): Verdicts
  {
    (i: nat, t: nat) =>
      i < |order| && t <= |ops| && order[i] in groups
      && IsAtMaxForGroup(Answer(Fold(ops[..t]), groups[order[i]], order[i]), count(order[i]))
  }

  /** The global filter's. */
  ghost function GlobalVerdicts(
      ops: seq<Op>, groups: map<string, string>, order: seq<string>, maxBlocksBehind: UInt64): Verdicts
  {
    (i: nat, t: nat) =>
      i < |order| && t <= |ops| && order[i] in groups
      && IsCloseToGlobalMax(Answer(Fold(ops[..t]), groups[order[i]], order[i]), maxBlocksBehind)
  }

  /** A pass in listed order that rejects everybody. */
  ghost predicate SomePassRejectsEveryone(
      ops: seq<Op>, groups: map<string, string>, order: seq<string>, maxBlocksBehind: UInt64, count: string -> nat,
      lo: nat, hi: nat)
  {
    exists visits :: IsPass(visits, |order|, lo, hi)
      && RejectsAll(GroupVerdicts(ops, groups, order, count), GlobalVerdicts(ops, groups, order, maxBlocksBehind),
                    visits)
  }

  /** Exactly when a pass in listed order can reject everybody, for any history, window and groups:
      when, asking each upstream in turn as early as it will be refused, all are refused within the
      window. */
  lemma PassRejectsEveryoneIff(
      ops: seq<Op>, groups: map<string, string>, order: seq<string>, maxBlocksBehind: UInt64, count: string -> nat,
      lo: nat, hi: nat)
    requires lo <= hi <= |ops|
    ensures SomePassRejectsEveryone(ops, groups, order, maxBlocksBehind, count, lo, hi) <==>
      EarliestPass(GroupVerdicts(ops, groups, order, count), GlobalVerdicts(ops, groups, order, maxBlocksBehind),
                   |order|, lo, hi) <= hi
  {
    RejectingPassIff(GroupVerdicts(ops, groups, order, count), GlobalVerdicts(ops, groups, order, maxBlocksBehind),
                     |order|, lo, hi);
  }

  /** At every moment of the window one of the n listed upstreams passes, the holder. */
  ghost predicate IsHolder(first: Verdicts, second: Verdicts, holder: nat -> nat, n: nat, lo: nat, hi: nat) {
    forall t: nat | lo <= t <= hi ::
      holder(t) < n && forall i: nat | i < n :: (first(i, t) && second(i, t)) <==> i == holder(t)
  }

  /** Where only one upstream passes at a time, the condition is that the part of the holder moves, at
      some time in the window, to an upstream that is asked earlier: never if it only moves down. */
  lemma SingleHolderPassIff(first: Verdicts, second: Verdicts, holder: nat -> nat, n: nat, lo: nat, hi: nat)
    requires IsHolder(first, second, holder, n, lo, hi) && n > 0
    ensures (exists visits :: IsPass(visits, n, lo, hi) && RejectsAll(first, second, visits))
      <==> exists p: nat, q: nat :: lo <= p <= q <= hi && holder(q) < holder(p)
  {
    if p: nat, q: nat :| lo <= p <= q <= hi && holder(q) < holder(p) {
      var visits := seq(n, i => if i < holder(p) then (p, p) else (q, q));
      assert IsPass(visits, n, lo, hi) && RejectsAll(first, second, visits);
    } else if visits :| IsPass(visits, n, lo, hi) && RejectsAll(first, second, visits) {
      HolderStaysAhead(first, second, holder, visits, n, lo, hi, n - 1);
    }
  }

  /** If the holder never moves up the list, it is always further down than whoever is asked. */
  lemma {:induction false} HolderStaysAhead(
      first: Verdicts, second: Verdicts, holder: nat -> nat, visits: seq<(nat, nat)>, n: nat, lo: nat, hi: nat, i: nat)
    requires IsHolder(first, second, holder, n, lo, hi) && i < n
    requires IsPass(visits, n, lo, hi) && RejectsAll(first, second, visits)
    requires forall p: nat, q: nat | lo <= p <= q <= hi :: holder(p) <= holder(q)
    ensures i < holder(visits[i].1)
  {
    var t := if first(i, visits[i].0) then visits[i].1 else visits[i].0;
    assert !(first(i, t) && second(i, t));
    if i > 0 {
      HolderStaysAhead(first, second, holder, visits, n, lo, hi, i - 1);
      assert visits[i - 1].1 <= visits[i].0 <= t;
      assert holder(visits[i - 1].1) <= holder(t);
    }
    assert holder(t) <= holder(visits[i].1);
  }

  /** The same of the two height filters: it takes a report in the window that makes somebody listed
      earlier the only one to pass. */
  lemma OvertakingRejectsEveryoneIff(
      ops: seq<Op>, groups: map<string, string>, order: seq<string>, maxBlocksBehind: UInt64, count: string -> nat,
      holder: nat -> nat, lo: nat, hi: nat)
    requires lo <= hi <= |ops| && order != []
    requires IsHolder(GroupVerdicts(ops, groups, order, count), GlobalVerdicts(ops, groups, order, maxBlocksBehind),
                      holder, |order|, lo, hi)
    ensures SomePassRejectsEveryone(ops, groups, order, maxBlocksBehind, count, lo, hi)
      <==> exists k: nat :: MovesUp(holder, lo, hi, k) && !ops[k - 1].Read?
  {
    var first, second := GroupVerdicts(ops, groups, order, count), GlobalVerdicts(ops, groups, order, maxBlocksBehind);
    SingleHolderPassIff(first, second, holder, |order|, lo, hi);
    if p: nat, q: nat :| lo <= p <= q <= hi && holder(q) < holder(p) {
      var k := MoveExists(holder, p, q);
      assert MovesUp(holder, lo, hi, k);
      HolderMovesByReport(ops, groups, order, maxBlocksBehind, count, holder, lo, hi, k);
    }
    if k: nat :| MovesUp(holder, lo, hi, k) {
      var p := k - 1;
      assert lo <= p <= k <= hi && holder(k) < holder(p);
    }
  }

  /** Reads change nothing. */
  lemma HolderMovesByReport(
      ops: seq<Op>, groups: map<string, string>, order: seq<string>, maxBlocksBehind: UInt64, count: string -> nat,
      holder: nat -> nat, lo: nat, hi: nat, k: nat)
    requires lo < k <= hi <= |ops| && holder(k) != holder(k - 1)
    requires IsHolder(GroupVerdicts(ops, groups, order, count), GlobalVerdicts(ops, groups, order, maxBlocksBehind),
                      holder, |order|, lo, hi)
    ensures !ops[k - 1].Read?
  {
    var first, second := GroupVerdicts(ops, groups, order, count), GlobalVerdicts(ops, groups, order, maxBlocksBehind);
    var i := holder(k);
    assert first(i, k) && second(i, k);
    assert !(first(i, k - 1) && second(i, k - 1));
    assert ops[..k][..k - 1] == ops[..k - 1];
    ApplyEffect(Fold(ops[..k - 1]), ops[k - 1]);
  }

  /** The k-th closure passes the part of the holder to an upstream that is asked earlier. */
  ghost predicate MovesUp(holder: nat -> nat, lo: nat, hi: nat, k: nat) {
    lo < k <= hi && holder(k) < holder(k - 1)
  }

  lemma {:induction false} MoveExists(holder: nat -> nat, p: nat, q: nat) returns (k: nat)
    requires p <= q && holder(q) < holder(p)
    ensures p < k <= q && holder(k) < holder(k - 1)
  {
    if holder(q) < holder(q - 1) {
      k := q;
    } else {
      k := MoveExists(holder, p, q - 1);
    }
  }

  /** Level upstreams do not help. Let the first listed upstream of a group lag behind any number of
      others, level or not, and then overtake them: asked before its report, and the others after it,
      all are refused, although heights only go up and at either moment somebody passes. */
  lemma OvertakerRejectsEveryone(
      ops: seq<Op>, groups: map<string, string>, order: seq<string>, maxBlocksBehind: UInt64, count: string -> nat,
      g: string, h: UInt64)
    requires order != [] && forall i | 0 <= i < |order| ::
      order[i] in groups && groups[order[i]] == g && count(order[i]) != 1 && KeepsGroup(ops, order[i], g)
    requires forall i | 0 < i < |order| :: order[i] != order[0]
    requires var s := Answer(Fold(ops), g, order[0]); s.height < s.groupMax < h
    ensures var ops' := ops + [HeightUpdate(g, order[0], h)];
      SomePassRejectsEveryone(ops', groups, order, maxBlocksBehind, count, |ops|, |ops| + 1)
  {
    var ops' := ops + [HeightUpdate(g, order[0], h)];
    var first := GroupVerdicts(ops', groups, order, count);
    forall i: nat | i < |order| ensures !first(i, FirstBefore(|ops|, i)) {
      OvertakerVerdict(ops, groups, order, count, g, h, i);
    }
    FirstBeforeIsPass(first, GlobalVerdicts(ops', groups, order, maxBlocksBehind), |order|, |ops|);
  }

  /** The first upstream is asked at one moment, the others at the next. */
  function FirstBefore(t: nat, i: nat): nat {
    if i == 0 then t else t + 1
  }

  lemma FirstBeforeIsPass(first: Verdicts, second: Verdicts, n: nat, t: nat)
    requires forall i: nat | i < n :: !first(i, FirstBefore(t, i))
    ensures exists visits :: IsPass(visits, n, t, t + 1) && RejectsAll(first, second, visits)
  {
    var visits := seq(n, (i: nat) => (FirstBefore(t, i), FirstBefore(t, i)));
    assert IsPass(visits, n, t, t + 1) && RejectsAll(first, second, visits);
  }

  lemma OvertakerVerdict(
      ops: seq<Op>, groups: map<string, string>, order: seq<string>, count: string -> nat, g: string, h: UInt64, i: nat)
    requires i < |order| && order[i] in groups && groups[order[i]] == g && count(order[i]) != 1
    requires KeepsGroup(ops, order[i], g) && (i > 0 ==> order[i] != order[0])
    requires var s := Answer(Fold(ops), g, order[0]); s.height < s.groupMax < h
    ensures !GroupVerdicts(ops + [HeightUpdate(g, order[0], h)], groups, order, count)(i, FirstBefore(|ops|, i))
  {
    var ops' := ops + [HeightUpdate(g, order[0], h)];
    if i == 0 {
      assert ops'[..|ops|] == ops;
    } else {
      assert ops'[..|ops| + 1] == ops';
      OvertakenIsRefused(ops, g, order[0], h, order[i], count(order[i]));
    }
  }

  lemma OvertakenIsRefused(ops: seq<Op>, g: string, a: string, h: UInt64, u: string, n: nat)
    requires Answer(Fold(ops), g, a).groupMax < h && u != a && n != 1 && KeepsGroup(ops, u, g)
    ensures !IsAtMaxForGroup(Answer(Fold(ops + [HeightUpdate(g, a, h)]), g, u), n)
  {
    FoldOneMore(ops, HeightUpdate(g, a, h));
    HeightsBelowMaxima(ops, g, u);
  }

  lemma FoldOneMore(ops: seq<Op>, op: Op)
    requires op.HeightUpdate?
    ensures var m := Fold(ops);
      Fold(ops + [op]) == Memory(
        Max(m.globalMax, op.height),
        m.groupMax[op.groupID := Max(Lookup(m.groupMax, op.groupID, 0), op.height)],
        m.heights[op.upstreamID := op.height],
        m.errors[op.upstreamID := None])
  {
    assert (ops + [op])[..|ops|] == ops;
    ApplyEffect(Fold(ops), op);
  }

  /** The shortest such history. */
  lemma SeparateReadsCanRejectEveryone()
    ensures
      var before := [HeightUpdate("g", "a", 1), HeightUpdate("g", "b", 2)];
      var after := before + [HeightUpdate("g", "a", 3)];
      && ReportsFrom(after, map["a" := "g", "b" := "g"]) && NeverGoesDown(after)
      && ErrorFree(after, map["a" := "g", "b" := "g"])
      && !IsAtMaxForGroup(Answer(Fold(before), "g", "a"), 2)
      && !IsAtMaxForGroup(Answer(Fold(after), "g", "b"), 2)
  {
    var o1, o2, o3 := HeightUpdate("g", "a", 1), HeightUpdate("g", "b", 2), HeightUpdate("g", "a", 3);
    assert [o1, o2] + [o3] == [o1, o2, o3];
    assert [o1, o2, o3][..2] == [o1, o2] && [o1, o2][..1] == [o1] && [o1][..0] == [];
    ApplyEffect(EMPTY, o1);
    ApplyEffect(Fold([o1]), o2);
    ApplyEffect(Fold([o1, o2]), o3);
  }

  // ---- Reads in a run of the store ----

  /** The calls that put an upstream's two questions, in the order the filters are chained: the global
      one is only put if the group filter has passed the upstream. */
  datatype Asked = Asked(group: nat, global: Option<nat>)

  /** Call c has been answered about u, its closure being the k-th one delivered. */
  ghost predicate IsAnsweredAt(s: System, c: nat, g: string, u: string, k: nat) {
    && c < |s.calls| && s.calls[c].op == Read(g, u) && s.calls[c].pc.Answered?
    && k < |s.log| && s.log[k].call == c
  }

  /** One upstream's two questions, the first answered after a closures, the second after b. */
  ghost predicate IsVisit(s: System, asked: Asked, g: string, u: string, n: nat, a: nat, b: nat) {
    && IsAnsweredAt(s, asked.group, g, u, a)
    && (IsAtMaxForGroup(s.calls[asked.group].pc.status, n) ==>
          asked.global.Some? && IsAnsweredAt(s, asked.global.value, g, u, b))
  }

  /** A filtering pass over all upstreams, in whatever order, answered within a window. */
  ghost predicate IsPassOf(
      s: System, pass: map<string, Asked>, groups: map<string, string>, count: string -> nat, lo: nat, hi: nat)
  {
    forall u | u in groups ::
      u in pass && exists a: nat, b: nat ::
        lo <= a <= hi && lo <= b <= hi && IsVisit(s, pass[u], groups[u], u, count(u), a, b)
  }

  /** Both filters pass the upstream, on the answers they got. */
  ghost predicate Accepts(s: System, asked: Asked, maxBlocksBehind: UInt64, n: nat) {
    && asked.group < |s.calls| && s.calls[asked.group].pc.Answered?
    && IsAtMaxForGroup(s.calls[asked.group].pc.status, n)
    && asked.global.Some? && asked.global.value < |s.calls| && s.calls[asked.global.value].pc.Answered?
    && IsCloseToGlobalMax(s.calls[asked.global.value].pc.status, maxBlocksBehind)
  }

  lemma AnsweredWithFold(s: System, c: nat, g: string, u: string, k: nat)
    requires Inv(s) && IsAnsweredAt(s, c, g, u, k)
    ensures s.calls[c].pc.status == Answer(Fold(OpsOf(s.log)[..k]), g, u)
  {
    assert CallOk(s, c);
    var k': nat :| AnsweredAt(s.log, k', c, s.calls[c].pc.status);
    assert k == k';
    assert OpsOf(s.log)[..k] == OpsOf(s.log[..k]);
  }

  /** The filters' verdicts on the answers are those at the times of the questions. */
  lemma AcceptsIff(s: System, asked: Asked, g: string, u: string, maxBlocksBehind: UInt64, n: nat, a: nat, b: nat)
    requires Inv(s) && IsVisit(s, asked, g, u, n, a, b) && b <= |s.log|
    ensures Accepts(s, asked, maxBlocksBehind, n) <==>
      PassesWhenAsked(OpsOf(s.log), g, u, maxBlocksBehind, n, a, b)
  {
    AnsweredWithFold(s, asked.group, g, u, a);
    if IsAtMaxForGroup(s.calls[asked.group].pc.status, n) {
      AnsweredWithFold(s, asked.global.value, g, u, b);
    }
  }

  /** In every run of the store with its callers: a filtering pass during which nothing is reported
      leaves some upstream, on the answers it actually got. */
  lemma RunHasPassingUpstream(
      states: seq<System>, steps: seq<Step>, i: nat, pass: map<string, Asked>, groups: map<string, string>,
      maxBlocksBehind: UInt64, count: string -> nat, lo: nat, hi: nat)
    returns (u: string)
    requires IsRun(states, steps) && i < |states| && lo <= hi < |states[i].log| && groups != map[]
    requires IsPassOf(states[i], pass, groups, count, lo, hi) && Quiet(OpsOf(states[i].log), lo, hi)
    requires var ops := OpsOf(states[i].log)[..lo];
      && ReportsFrom(ops, groups) && ErrorFree(ops, groups) && NeverGoesDown(ops)
      && Fold(ops).globalMax + maxBlocksBehind < TWO_64
    ensures u in groups && u in pass && Accepts(states[i], pass[u], maxBlocksBehind, count(u))
  {
    RunKeepsInv(states, steps, i);
    var s, ops := states[i], OpsOf(states[i].log);
    u := QuietReadsLeaveSomeone(ops, groups, maxBlocksBehind, lo, hi);
    var a: nat, b: nat :| lo <= a <= hi && lo <= b <= hi && IsVisit(s, pass[u], groups[u], u, count(u), a, b);
    assert PassesWhenAsked(ops, groups[u], u, maxBlocksBehind, count(u), a, b);
    AcceptsIff(s, pass[u], groups[u], u, maxBlocksBehind, count(u), a, b);
  }

  /** A pass in listed order, visit by visit. */
  ghost predicate IsOrderedPassOf(
      s: System, pass: map<string, Asked>, groups: map<string, string>, order: seq<string>, count: string -> nat,
      visits: seq<(nat, nat)>, lo: nat, hi: nat)
  {
    && IsPass(visits, |order|, lo, hi)
    && forall i | 0 <= i < |order| ::
         order[i] in groups && order[i] in pass
         && IsVisit(s, pass[order[i]], groups[order[i]], order[i], count(order[i]), visits[i].0, visits[i].1)
  }

  /** With reports during the pass: in every run, a pass in listed order leaves some upstream, on the
      answers it actually got, unless the history lets everybody be refused in turn within its window. */
  lemma RunLeavesSomeoneUnless(
      states: seq<System>, steps: seq<Step>, i: nat, pass: map<string, Asked>, groups: map<string, string>,
      order: seq<string>, maxBlocksBehind: UInt64, count: string -> nat, visits: seq<(nat, nat)>, lo: nat, hi: nat)
    requires IsRun(states, steps) && i < |states| && lo <= hi < |states[i].log|
    requires IsOrderedPassOf(states[i], pass, groups, order, count, visits, lo, hi)
    ensures (exists k :: 0 <= k < |order| && Accepts(states[i], pass[order[k]], maxBlocksBehind, count(order[k])))
      || EarliestPass(GroupVerdicts(OpsOf(states[i].log), groups, order, count),
                      GlobalVerdicts(OpsOf(states[i].log), groups, order, maxBlocksBehind), |order|, lo, hi) <= hi
  {
    RunKeepsInv(states, steps, i);
    var s, ops := states[i], OpsOf(states[i].log);
    var first, second := GroupVerdicts(ops, groups, order, count), GlobalVerdicts(ops, groups, order, maxBlocksBehind);
    if forall k | 0 <= k < |order| :: !Accepts(s, pass[order[k]], maxBlocksBehind, count(order[k])) {
      forall k: nat | k < |order| ensures !(first(k, visits[k].0) && second(k, visits[k].1)) {
        var u := order[k];
        AcceptsIff(s, pass[u], groups[u], u, maxBlocksBehind, count(u), visits[k].0, visits[k].1);
      }
      assert RejectsAll(first, second, visits);
      RejectingPassIff(first, second, |order|, lo, hi);
    }
  }
}
