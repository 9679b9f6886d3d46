/** One upstream's block-height checker: a WebSocket listener and an HTTP poller over the same
    fields, first with every interleaving of their writes, then as the object whose methods are
    those steps run undisturbed. Its reports are the operations of the block-height store. */
module BlockHeightCheck {
  import opened Wrappers
  import opened ChainStore
  import opened Topology

  predicate WantsWS(u: UpstreamConfig) {
    u.wsURL != "" && u.useWSForBlockHeight != Some(false)
  }

  /** Who listens: with a WebSocket URL, everybody who does not refuse; so every valid upstream that
      demands it. */
  lemma WantsWSIff(u: UpstreamConfig, groups: seq<GroupConfig>)
    ensures u.wsURL == "" ==> !WantsWS(u)
    ensures u.wsURL != "" ==> (WantsWS(u) <==> match u.useWSForBlockHeight case None => true case Some(b) => b)
    ensures ValidUpstream(u, groups) && u.useWSForBlockHeight == Some(true) ==> WantsWS(u)
  {
  }

  /** The checker's fields, and what it has reported to its observer. */
  datatype Fields = Fields(
    useWS: bool,
    webSocketError: Option<string>,
    hasHTTPClient: bool,
    heightError: Option<string>,
    height: UInt64,
    reports: seq<Op>)

  const BLANK: Fields := Fields(false, None, false, None, 0, [])

  function Report(f: Fields, op: Op): Fields {
    f.(reports := f.reports + [op])
  }

  /** The writes of `onNewHead`, one by one. */
  const HEAD_WRITES: nat := 5

  function HeadWrite(u: UpstreamConfig, f: Fields, h: UInt64, k: nat): Fields {
    if k == 0 then f.(height := h)
    else if k == 1 then Report(f, HeightUpdate(u.groupID, u.id, h))
    else if k == 2 then f.(webSocketError := None)
    else if k == 3 then f.(heightError := None)
    else Report(f, ErrorUpdate(u.id, None))
  }

  /** The writes of `onError`. */
  const FAIL_WRITES: nat := 3

  function FailWrite(u: UpstreamConfig, f: Fields, failure: string, k: nat): Fields {
    if k == 0 then f.(webSocketError := Some(failure))
    else if k == 1 then f.(heightError := Some(failure))
    else Report(f, ErrorUpdate(u.id, Some(failure)))
  }

  /** The test at the top of `RunCheck`. */
  predicate TakesHTTP(f: Fields) {
    !f.useWS || f.webSocketError.Some?
  }

  datatype PollReply = Header(height: UInt64) | Failure(error: string)

  // ---- The two goroutines interleaved ----

  /** `Handling` and `Failing` count the writes of the handler that are done. */
  datatype Listener =
    | NotStarted
    | Listening
    | Handling(head: UInt64, done: nat)
    | Failing(failure: string, done: nat)
    | Ended

  /** The goroutine that starts the checker and then runs its checks. `Examining`: what a poll's reply
      made of the error field is written, not yet read again. `Crashed`: a header that never came was
      used. */
  datatype Poller =
    | BeforeWS
    | BeforeHTTP
    | Idle
    | NeedsClient
    | ReportingFailure(error: string)
    | Polling
    | Examining(reply: PollReply)
    | Crashed
    | Storing(header: UInt64)
    | Reporting(header: UInt64)

  datatype Writer = ByWS | ByHTTP

  /** `writes` records who wrote each height; `closedCleanly` that the subscription ended with a
      nil error. */
  datatype System = System(
    upstream: UpstreamConfig,
    fields: Fields,
    listener: Listener,
    poller: Poller,
    writes: seq<Writer>,
    closedCleanly: bool)

  datatype Step =
    | ConnectWS(wsFailure: Option<string>)
    | ConnectHTTP(httpFailure: Option<string>)
    | BeginCheck
    | GetClient(clientFailure: Option<string>)
    | ReportFailure
    | Poll(reply: PollReply)
    | Examine
    | StoreHeader
    | ReportHeader
    | Head(h: UInt64)
    | HandlerWrite
    | HandlerReturn
    | Fail(failure: string)
    | Close

  function Initial(u: UpstreamConfig): System {
    System(u, BLANK, NotStarted, BeforeWS, [], false)
  }

  predicate Enabled(s: System, step: Step) {
    match step
    case ConnectWS(_) => s.poller.BeforeWS?
    case ConnectHTTP(_) => s.poller.BeforeHTTP?
    case BeginCheck => s.poller.Idle?
    case GetClient(_) => s.poller.NeedsClient?
    case ReportFailure => s.poller.ReportingFailure?
    case Poll(_) => s.poller.Polling?
    case Examine => s.poller.Examining?
    case StoreHeader => s.poller.Storing?
    case ReportHeader => s.poller.Reporting?
    case Head(_) => s.listener.Listening?
    case HandlerWrite =>
      || (s.listener.Handling? && s.listener.done < HEAD_WRITES)
      || (s.listener.Failing? && s.listener.done < FAIL_WRITES)
    case HandlerReturn =>
      || (s.listener.Handling? && s.listener.done >= HEAD_WRITES)
      || (s.listener.Failing? && s.listener.done >= FAIL_WRITES)
    case Fail(_) => s.listener.Listening?
    case Close => s.listener.Listening?
  }

  /** Getting an HTTP client: on failure the error is first kept, and reported in a step of its own. */
  function Connect(s: System, failure: Option<string>, connected: Poller): System {
    match failure
    case None => s.(fields := s.fields.(hasHTTPClient := true), poller := connected)
    case Some(error) => s.(fields := s.fields.(heightError := failure), poller := ReportingFailure(error))
  }

  function Do(s: System, step: Step): System
    requires Enabled(s, step)
  {
    var u, f := s.upstream, s.fields;
    match step
    case ConnectWS(failure) =>
      s.(fields := ConnectedWS(u, f, failure),
         listener := if WantsWS(u) && failure == None then Listening else NotStarted,
         poller := BeforeHTTP)
    case ConnectHTTP(failure) => Connect(s, failure, Idle)
    case BeginCheck =>
      s.(poller := if !TakesHTTP(f) then Idle else if f.hasHTTPClient then Polling else NeedsClient)
    case GetClient(failure) => Connect(s, failure, Polling)
    case ReportFailure =>
      s.(fields := Report(f, ErrorUpdate(u.id, Some(s.poller.error))), poller := Idle)
    case Poll(reply) =>
      s.(fields := f.(heightError := if reply.Failure? then Some(reply.error) else None), poller := Examining(reply))
    case Examine =>
      s.(poller := if f.heightError.Some? then Idle
                   else if s.poller.reply.Header? then Storing(s.poller.reply.height)
                   else Crashed)
    case StoreHeader =>
      s.(fields := f.(height := s.poller.header), poller := Reporting(s.poller.header), writes := s.writes + [ByHTTP])
    case ReportHeader =>
      s.(fields := Report(f, HeightUpdate(u.groupID, u.id, s.poller.header)), poller := Idle)
    case Head(h) => s.(listener := Handling(h, 0))
    case HandlerWrite =>
      if s.listener.Handling? then
        s.(fields := HeadWrite(u, f, s.listener.head, s.listener.done),
           listener := Handling(s.listener.head, s.listener.done + 1),
           writes := if s.listener.done == 0 then s.writes + [ByWS] else s.writes)
      else
        s.(fields := FailWrite(u, f, s.listener.failure, s.listener.done),
           listener := Failing(s.listener.failure, s.listener.done + 1))
    case HandlerReturn => s.(listener := if s.listener.Handling? then Listening else Ended)
    case Fail(failure) => s.(listener := Failing(failure, 0))
    case Close => s.(listener := Ended, closedCleanly := true)
  }

  ghost predicate IsRun(u: UpstreamConfig, states: seq<System>, steps: seq<Step>) {
    && |states| == |steps| + 1
    && states[0] == Initial(u)
    && forall i | 0 <= i < |steps| :: Enabled(states[i], steps[i]) && states[i + 1] == Do(states[i], steps[i])
  }

  predicate IsListening(s: System) {
    s.listener.Listening? || s.listener.Handling?
  }

  predicate IsPolling(s: System) {
    || s.poller.NeedsClient? || s.poller.Polling? || s.poller.Examining?
    || s.poller.Storing? || s.poller.Reporting?
  }

  predicate IsStarted(s: System) {
    !s.poller.BeforeWS?
  }

  /** The WebSocket error is set exactly from the moment the listener stops listening, except
      after a clean close; and while the poller has a failed reply in hand its error stays set. */
  ghost predicate Inv(s: System) {
    var f := s.fields;
    && (!IsStarted(s) ==> s.listener.NotStarted? && !f.useWS && f.webSocketError == None && s.writes == [])
    && (IsStarted(s) ==> f.useWS == WantsWS(s.upstream))
    && (IsStarted(s) && !f.useWS ==> s.listener.NotStarted?)
    && (IsStarted(s) && f.useWS ==>
          (f.webSocketError == None <==>
             IsListening(s) || (s.listener.Failing? && s.listener.done == 0) || s.closedCleanly))
    && (s.closedCleanly ==> s.listener.Ended? && f.useWS)
    && (IsPolling(s) ==> TakesHTTP(f))
    && !s.poller.Crashed?
    && (s.poller.Examining? && s.poller.reply.Failure? ==> f.heightError.Some?)
    && (ByHTTP in s.writes ==> TakesHTTP(f) && IsStarted(s))
    && (forall a, b | 0 <= a < b < |s.writes| && s.writes[a] == ByHTTP :: s.writes[b] == ByHTTP)
  }

  lemma StepKeepsInv(s: System, step: Step)
    requires Inv(s) && Enabled(s, step)
    ensures Inv(Do(s, step)) && Do(s, step).upstream == s.upstream
  {
  }

  lemma {:induction false} RunKeepsInv(u: UpstreamConfig, states: seq<System>, steps: seq<Step>, i: nat)
    requires IsRun(u, states, steps) && i < |states|
    ensures Inv(states[i]) && states[i].upstream == u
  {
    if i > 0 {
      RunKeepsInv(u, states, steps, i - 1);
      StepKeepsInv(states[i - 1], steps[i - 1]);
    }
  }

  /** The source switches at most once, and from WebSocket to HTTP: in every interleaving, once a
      poll has written a height the listener never writes one again. */
  lemma SwitchesAtMostOnce(u: UpstreamConfig, states: seq<System>, steps: seq<Step>, i: nat, a: nat, b: nat)
    requires IsRun(u, states, steps) && i < |states|
    requires a < b < |states[i].writes| && states[i].writes[a] == ByHTTP
    ensures states[i].writes[b] == ByHTTP
  {
    RunKeepsInv(u, states, steps, i);
  }

  /** A poll keeps its error in a field and then reads the field again to decide whether there is a
      header. That is safe, whatever the listener does in between: a missing header is never used. */
  lemma MissingHeaderIsNeverUsed(u: UpstreamConfig, states: seq<System>, steps: seq<Step>, i: nat)
    requires IsRun(u, states, steps) && i < |states|
    ensures !states[i].poller.Crashed?
  {
    RunKeepsInv(u, states, steps, i);
  }

  /** The listener's error handler overwrites the error in between. */
  ghost predicate FailureLands(states: seq<System>, steps: seq<Step>, i: nat, j: nat)
    requires i <= j <= |steps| < |states|
  {
    exists k :: i <= k < j && steps[k] == HandlerWrite && states[k].listener.Failing? && states[k].listener.done == 1
  }

  /** But a header that has arrived is dropped exactly when the listener's error handler writes its
      error between the two. */
  lemma HeaderDroppedIff(u: UpstreamConfig, states: seq<System>, steps: seq<Step>, i: nat, j: nat)
    requires IsRun(u, states, steps) && i < j < |steps|
    requires steps[i].Poll? && steps[i].reply.Header? && steps[j] == Examine
    requires forall k | i < k < j :: steps[k] != Examine
    ensures states[j + 1].poller == Idle <==> FailureLands(states, steps, i + 1, j)
    ensures states[j + 1].poller == Storing(steps[i].reply.height) <==> !FailureLands(states, steps, i + 1, j)
  {
    ExaminingUntil(u, states, steps, i, j);
  }

  lemma {:induction false} ExaminingUntil(
      u: UpstreamConfig, states: seq<System>, steps: seq<Step>, i: nat, j: nat)
    requires IsRun(u, states, steps) && i < j < |states|
    requires steps[i].Poll? && steps[i].reply.Header?
    requires forall k | i < k < j :: steps[k] != Examine
    ensures states[j].poller == Examining(steps[i].reply)
    ensures states[j].fields.heightError.Some? <==> FailureLands(states, steps, i + 1, j)
    decreases j
  {
    if j > i + 1 {
      ExaminingUntil(u, states, steps, i, j - 1);
      RunKeepsInv(u, states, steps, j - 1);
      assert FailureLands(states, steps, i + 1, j) <==>
        FailureLands(states, steps, i + 1, j - 1)
        || (steps[j - 1] == HandlerWrite && states[j - 1].listener.Failing? && states[j - 1].listener.done == 1);
    }
  }

  /** Heights keep coming from somewhere: the listener is alive or on its way to reporting its
      failure, or the next check polls. */
  predicate HasSource(s: System) {
    IsListening(s) || (s.listener.Failing? && s.listener.done == 0) || TakesHTTP(s.fields)
  }

  /** A started checker has a source exactly as long as its subscription has not ended with a nil
      error. */
  lemma HasSourceIff(u: UpstreamConfig, states: seq<System>, steps: seq<Step>, i: nat)
    requires IsRun(u, states, steps) && i < |states| && IsStarted(states[i])
    ensures HasSource(states[i]) <==> !states[i].closedCleanly
  {
    RunKeepsInv(u, states, steps, i);
  }

  /** After a clean close no height is ever written again. */
  lemma {:induction false} CleanCloseSilences(u: UpstreamConfig, states: seq<System>, steps: seq<Step>, i: nat, j: nat)
    requires IsRun(u, states, steps) && i <= j < |states| && states[i].closedCleanly
    ensures states[j].closedCleanly && states[j].writes == states[i].writes
    decreases j
  {
    if i < j {
      CleanCloseSilences(u, states, steps, i, j - 1);
      RunKeepsInv(u, states, steps, j - 1);
    }
  }

  /** Failed polls never reach the store: with the listener gone, checks whose polls all fail
      leave everything reported as it was. */
  lemma {:induction false} FailedPollsAreSilent(
      u: UpstreamConfig, states: seq<System>, steps: seq<Step>, i: nat, j: nat)
    requires IsRun(u, states, steps) && i <= j < |states|
    requires states[i].poller.Idle? && (states[i].listener.Ended? || states[i].listener.NotStarted?)
    requires states[i].fields.hasHTTPClient
    requires forall k | i <= k < j && steps[k].Poll? :: steps[k].reply.Failure?
    ensures states[j].fields.reports == states[i].fields.reports && states[j].fields.height == states[i].fields.height
    ensures states[j].poller.Idle? || states[j].poller.Polling? || states[j].poller.Examining?
    ensures states[j].poller.Examining? ==> states[j].poller.reply.Failure? && states[j].fields.heightError.Some?
    ensures states[j].listener == states[i].listener && states[j].fields.hasHTTPClient
    decreases j
  {
    if i < j {
      FailedPollsAreSilent(u, states, steps, i, j - 1);
    }
  }

  /** A report that names the upstream and, when it is a height, the upstream's own group. */
  predicate IsOwnReport(op: Op, u: UpstreamConfig) {
    !op.Read? && op.upstreamID == u.id && (op.HeightUpdate? ==> op.groupID == u.groupID)
  }

  /** A step reports at most once. */
  lemma StepReports(s: System, step: Step)
    requires Enabled(s, step)
    ensures var before, after := s.fields.reports, Do(s, step).fields.reports;
      after == before
      || (|after| == |before| + 1 && after == before + [after[|before|]] && IsOwnReport(after[|before|], s.upstream))
  {
  }

  /** The report passes on what this step received: a head, a polled header, or a failure. */
  predicate PassesOn(op: Op, step: Step) {
    match op
    case HeightUpdate(_, _, h) => step == Head(h) || step == Poll(Header(h))
    case ErrorUpdate(_, Some(e)) => step == Fail(e) || step == ConnectHTTP(Some(e)) || step == GetClient(Some(e))
    case ErrorUpdate(_, None) => step.Head?
    case Read(_, _) => false
  }

  ghost predicate WasReceived(op: Op, steps: seq<Step>, n: nat)
    requires n <= |steps|
  {
    exists k :: 0 <= k < n && PassesOn(op, steps[k])
  }

  /** What the goroutines have in hand was received. */
  ghost predicate ListenerReceived(s: System, steps: seq<Step>, n: nat)
    requires n <= |steps|
  {
    && (s.listener.Handling? ==>
          && WasReceived(HeightUpdate(s.upstream.groupID, s.upstream.id, s.listener.head), steps, n)
          && WasReceived(ErrorUpdate(s.upstream.id, None), steps, n))
    && (s.listener.Failing? ==> WasReceived(ErrorUpdate(s.upstream.id, Some(s.listener.failure)), steps, n))
  }

  ghost predicate PollerReceived(s: System, steps: seq<Step>, n: nat)
    requires n <= |steps|
  {
    && (s.poller.Examining? && s.poller.reply.Header? ==>
          WasReceived(HeightUpdate(s.upstream.groupID, s.upstream.id, s.poller.reply.height), steps, n))
    && (s.poller.Storing? || s.poller.Reporting? ==>
          WasReceived(HeightUpdate(s.upstream.groupID, s.upstream.id, s.poller.header), steps, n))
    && (s.poller.ReportingFailure? ==> WasReceived(ErrorUpdate(s.upstream.id, Some(s.poller.error)), steps, n))
  }

  lemma ReceivedStays(op: Op, steps: seq<Step>, n: nat)
    requires n < |steps|
    ensures WasReceived(op, steps, n) ==> WasReceived(op, steps, n + 1)
    ensures PassesOn(op, steps[n]) ==> WasReceived(op, steps, n + 1)
  {
  }

  lemma ListenerStepReceived(s: System, steps: seq<Step>, n: nat)
    requires n < |steps| && Enabled(s, steps[n]) && ListenerReceived(s, steps, n)
    ensures ListenerReceived(Do(s, steps[n]), steps, n + 1)
  {
    var listener := Do(s, steps[n]).listener;
    if listener.Handling? {
      ReceivedStays(HeightUpdate(s.upstream.groupID, s.upstream.id, listener.head), steps, n);
      ReceivedStays(ErrorUpdate(s.upstream.id, None), steps, n);
    } else if listener.Failing? {
      ReceivedStays(ErrorUpdate(s.upstream.id, Some(listener.failure)), steps, n);
    }
  }

  lemma PollerStepReceived(s: System, steps: seq<Step>, n: nat)
    requires n < |steps| && Enabled(s, steps[n]) && PollerReceived(s, steps, n)
    ensures PollerReceived(Do(s, steps[n]), steps, n + 1)
  {
    var poller := Do(s, steps[n]).poller;
    if poller.Examining? && poller.reply.Header? {
      ReceivedStays(HeightUpdate(s.upstream.groupID, s.upstream.id, poller.reply.height), steps, n);
    } else if poller.Storing? || poller.Reporting? {
      ReceivedStays(HeightUpdate(s.upstream.groupID, s.upstream.id, poller.header), steps, n);
    } else if poller.ReportingFailure? {
      ReceivedStays(ErrorUpdate(s.upstream.id, Some(poller.error)), steps, n);
    }
  }

  lemma {:induction false} InHand(u: UpstreamConfig, states: seq<System>, steps: seq<Step>, i: nat)
    requires IsRun(u, states, steps) && i < |states|
    ensures ListenerReceived(states[i], steps, i) && PollerReceived(states[i], steps, i)
  {
    if i > 0 {
      InHand(u, states, steps, i - 1);
      ListenerStepReceived(states[i - 1], steps, i - 1);
      PollerStepReceived(states[i - 1], steps, i - 1);
    }
  }

  /** A step's report is what it has in hand. */
  lemma StepReportsReceived(s: System, steps: seq<Step>, n: nat)
    requires n < |steps| && Enabled(s, steps[n]) && ListenerReceived(s, steps, n) && PollerReceived(s, steps, n)
    ensures var before, after := s.fields.reports, Do(s, steps[n]).fields.reports;
      after == before
      || (|after| == |before| + 1 && after[..|before|] == before && WasReceived(after[|before|], steps, n))
  {
    StepReports(s, steps[n]);
  }

  /** Nothing is made up: in every run each reported height is one that a head or a polled header
      brought, each reported error one that failed, and an error is only cleared after a head. */
  lemma {:induction false} ReportsWereReceived(u: UpstreamConfig, states: seq<System>, steps: seq<Step>, i: nat)
    requires IsRun(u, states, steps) && i < |states|
    ensures forall k | 0 <= k < |states[i].fields.reports| :: WasReceived(states[i].fields.reports[k], steps, i)
  {
    if i > 0 {
      ReportsWereReceived(u, states, steps, i - 1);
      InHand(u, states, steps, i - 1);
      StepReportsReceived(states[i - 1], steps, i - 1);
      var before, after := states[i - 1].fields.reports, states[i].fields.reports;
      forall k | 0 <= k < |after| ensures WasReceived(after[k], steps, i) {
        assert k < |before| ==> after[..|before|][k] == before[k];
        ReceivedStays(after[k], steps, i - 1);
      }
    }
  }

  /** The header of a poll is stored and reported as it came. */
  lemma PolledHeightIsReported(u: UpstreamConfig, states: seq<System>, steps: seq<Step>, i: nat, j: nat)
    requires IsRun(u, states, steps) && i < j < |steps|
    requires steps[i].Poll? && forall k | i < k < j :: !steps[k].Poll?
    requires steps[j].StoreHeader? || steps[j].ReportHeader?
    ensures steps[i].reply.Header?
    ensures steps[j].StoreHeader? ==> states[j + 1].fields.height == steps[i].reply.height
    ensures steps[j].ReportHeader? ==>
      states[j + 1].fields.reports
        == states[j].fields.reports + [HeightUpdate(u.groupID, u.id, steps[i].reply.height)]
  {
    RunKeepsInv(u, states, steps, j);
    PollerCarries(u, states, steps, i, j);
  }

  lemma PollerStepCarries(s: System, step: Step, reply: PollReply)
    requires Enabled(s, step) && !step.Poll?
    requires s.poller.Examining? ==> s.poller.reply == reply
    requires s.poller.Storing? || s.poller.Reporting? ==> reply == Header(s.poller.header)
    ensures var poller := Do(s, step).poller;
      && (poller.Examining? ==> poller.reply == reply)
      && (poller.Storing? || poller.Reporting? ==> reply == Header(poller.header))
  {
  }

  lemma {:induction false} PollerCarries(u: UpstreamConfig, states: seq<System>, steps: seq<Step>, i: nat, j: nat)
    requires IsRun(u, states, steps) && i < j <= |steps|
    requires steps[i].Poll? && forall k | i < k < j :: !steps[k].Poll?
    ensures var poller := states[j].poller;
      && (poller.Examining? ==> poller.reply == steps[i].reply)
      && (poller.Storing? || poller.Reporting? ==> steps[i].reply == Header(poller.header))
    decreases j
  {
    if i + 1 < j {
      PollerCarries(u, states, steps, i, j - 1);
      PollerStepCarries(states[j - 1], steps[j - 1], steps[i].reply);
    }
  }

  /** So is a head: its handler's first write stores it, its second reports it. */
  lemma HeadIsReported(u: UpstreamConfig, states: seq<System>, steps: seq<Step>, i: nat, j: nat)
    requires IsRun(u, states, steps) && i < j < |steps|
    requires steps[i].Head? && forall k | i < k < j :: !steps[k].Head?
    requires steps[j] == HandlerWrite && states[j].listener.Handling?
    ensures states[j].listener.done == 0 ==> states[j + 1].fields.height == steps[i].h
    ensures states[j].listener.done == 1 ==>
      states[j + 1].fields.reports == states[j].fields.reports + [HeightUpdate(u.groupID, u.id, steps[i].h)]
    ensures states[j].listener.done == 4 ==>
      states[j + 1].fields.reports == states[j].fields.reports + [ErrorUpdate(u.id, None)]
  {
    RunKeepsInv(u, states, steps, j);
    ListenerCarries(u, states, steps, i, j);
  }

  lemma {:induction false} ListenerCarries(u: UpstreamConfig, states: seq<System>, steps: seq<Step>, i: nat, j: nat)
    requires IsRun(u, states, steps) && i < j <= |steps|
    requires steps[i].Head? && forall k | i < k < j :: !steps[k].Head?
    ensures states[j].listener.Handling? ==> states[j].listener.head == steps[i].h
    decreases j
  {
    if i + 1 < j {
      ListenerCarries(u, states, steps, i, j - 1);
    }
  }

  /** What a checker reports about its upstream names its own group, so that a store fed by
      checkers keeps every upstream in its group. */
  lemma {:induction false} ReportsOwnGroup(u: UpstreamConfig, states: seq<System>, steps: seq<Step>, i: nat)
    requires IsRun(u, states, steps) && i < |states|
    ensures forall op | op in states[i].fields.reports :: IsOwnReport(op, u)
    ensures KeepsGroup(states[i].fields.reports, u.id, u.groupID)
  {
    if i > 0 {
      ReportsOwnGroup(u, states, steps, i - 1);
      RunKeepsInv(u, states, steps, i - 1);
      StepReports(states[i - 1], steps[i - 1]);
    }
  }

  // ---- The checker as an object, each method running undisturbed ----

  predicate CanRun(s: System, run: Run<Step>)
    decreases run, 0
  {
    run.Then? ==> CanRun(s, run.before) && Enabled(After(s, run.before), run.step)
  }

  /** Where the steps lead. */
  function After(s: System, run: Run<Step>): System
    requires CanRun(s, run)
    decreases run, 1
  {
    match run
    case Begin => s
    case Then(before, step) => Do(After(s, before), step)
  }

  /** The same runs as above: from the initial state, steps that can be taken are a run that ends
      where they lead. */
  lemma {:induction false} StepsAreRun(u: UpstreamConfig, run: Run<Step>)
    returns (states: seq<System>, steps: seq<Step>)
    requires CanRun(Initial(u), run)
    ensures IsRun(u, states, steps) && states[|steps|] == After(Initial(u), run)
  {
    match run
    case Begin =>
      states, steps := [Initial(u)], [];
    case Then(before, step) =>
      states, steps := StepsAreRun(u, before);
      states, steps := states + [Do(states[|steps|], step)], steps + [step];
  }

  /** What starting a checker takes. */
  function StartRun(wsFailure: Option<string>, httpFailure: Option<string>): Run<Step> {
    var connected := Then(Then(Begin, ConnectWS(wsFailure)), ConnectHTTP(httpFailure));
    if httpFailure.Some? then Then(connected, ReportFailure) else connected
  }

  function ConnectedWS(u: UpstreamConfig, f: Fields, failure: Option<string>): Fields {
    if !WantsWS(u) then f
    else f.(useWS := true, webSocketError := if failure.Some? then failure else f.webSocketError)
  }

  lemma StartRunLeads(s: System, wsFailure: Option<string>, httpFailure: Option<string>)
    requires s.poller.BeforeWS?
    ensures var run := StartRun(wsFailure, httpFailure);
      && CanRun(s, run)
      && After(s, run) == s.(
           fields := ConnectedHTTP(s.upstream, ConnectedWS(s.upstream, s.fields, wsFailure), httpFailure),
           listener := if WantsWS(s.upstream) && wsFailure == None then Listening else NotStarted,
           poller := Idle)
  {
    assert CanRun(s, Begin) && After(s, Begin) == s;
    var first := Then(Begin, ConnectWS(wsFailure));
    assert CanRun(s, first) && After(s, first) == Do(s, ConnectWS(wsFailure));
    var connected := Then(first, ConnectHTTP(httpFailure));
    assert CanRun(s, connected) && After(s, connected) == Do(After(s, first), ConnectHTTP(httpFailure));
  }

  /** The steps of one check: none but the first unless it polls; a missing client is got first. */
  function CheckRun(f: Fields, failure: Option<string>, reply: PollReply): Run<Step> {
    var begun := Then(Begin, BeginCheck);
    if !TakesHTTP(f) then begun
    else if f.hasHTTPClient then PollRun(begun, reply)
    else
      var got := Then(begun, GetClient(failure));
      if failure.Some? then Then(got, ReportFailure) else PollRun(got, reply)
  }

  function PollRun(before: Run<Step>, reply: PollReply): Run<Step> {
    var examined := Then(Then(before, Poll(reply)), Examine);
    if reply.Header? then Then(Then(examined, StoreHeader), ReportHeader) else examined
  }

  /** The first n steps of a handler, after the event that calls it. */
  function HandlerRun(event: Step, n: nat): Run<Step> {
    if n == 0 then Then(Begin, event) else Then(HandlerRun(event, n - 1), HandlerWrite)
  }

  lemma {:induction false} HeadRunLeads(s: System, h: UInt64, n: nat)
    requires s.listener.Listening? && n <= HEAD_WRITES
    ensures var run := HandlerRun(Head(h), n);
      && CanRun(s, run)
      && After(s, run) == s.(
           fields := AfterHead(s.upstream, s.fields, h, n),
           listener := Handling(h, n),
           writes := if n == 0 then s.writes else s.writes + [ByWS])
  {
    if n > 0 {
      HeadRunLeads(s, h, n - 1);
    } else {
      assert CanRun(s, Begin) && After(s, Begin) == s;
    }
  }

  lemma {:induction false} FailRunLeads(s: System, failure: string, n: nat)
    requires s.listener.Listening? && n <= FAIL_WRITES
    ensures var run := HandlerRun(Fail(failure), n);
      && CanRun(s, run)
      && After(s, run) == s.(fields := AfterFailure(s.upstream, s.fields, failure, n), listener := Failing(failure, n))
  {
    if n > 0 {
      FailRunLeads(s, failure, n - 1);
    } else {
      assert CanRun(s, Begin) && After(s, Begin) == s;
    }
  }

  /** A poll that is about to be made. */
  lemma PollRunLeads(s: System, before: Run<Step>, reply: PollReply)
    requires CanRun(s, before) && After(s, before).poller.Polling? && After(s, before).upstream == s.upstream
    ensures var t, run := After(s, before), PollRun(before, reply);
      && CanRun(s, run)
      && After(s, run).fields == Polled(s.upstream, t.fields, reply)
      && After(s, run).poller.Idle? && After(s, run).listener == t.listener && After(s, run).upstream == s.upstream
  {
    var polled := Then(before, Poll(reply));
    assert CanRun(s, polled);
    assert CanRun(s, Then(polled, Examine));
    if reply.Header? {
      assert CanRun(s, Then(Then(polled, Examine), StoreHeader));
    }
  }

  lemma CheckRunLeads(s: System, failure: Option<string>, reply: PollReply)
    requires s.poller.Idle?
    ensures var run := CheckRun(s.fields, failure, reply);
      && CanRun(s, run)
      && After(s, run).fields == Checked(s.upstream, s.fields, failure, reply)
      && After(s, run).poller.Idle? && After(s, run).listener == s.listener && After(s, run).upstream == s.upstream
  {
    assert CanRun(s, Begin) && After(s, Begin) == s;
    var begun := Then(Begin, BeginCheck);
    assert CanRun(s, begun);
    if TakesHTTP(s.fields) {
      if s.fields.hasHTTPClient {
        PollRunLeads(s, begun, reply);
      } else {
        var got := Then(begun, GetClient(failure));
        assert CanRun(s, got);
        if failure == None {
          PollRunLeads(s, got, reply);
        }
      }
    }
  }

  /** `reports` is everything the observer has been told. */
  class Checker {
    const upstream: UpstreamConfig
    var useWSForBlockHeight: bool
    var webSocketError: Option<string>
    var httpClient: bool
    var blockHeightError: Option<string>
    var blockHeight: UInt64
    ghost var reports: seq<Op>

    ghost function State(): Fields
      reads this
    {
      Fields(useWSForBlockHeight, webSocketError, httpClient, blockHeightError, blockHeight, reports)
    }

    /** The object is the one this system is about. */
    ghost predicate Shows(s: System)
      reads this
    {
      s.upstream == upstream && s.fields == State()
    }

    constructor (upstream: UpstreamConfig)
      ensures this.upstream == upstream && Shows(Initial(upstream))
    {
      this.upstream := upstream;
      useWSForBlockHeight, webSocketError, httpClient := false, None, false;
      blockHeightError, blockHeight, reports := None, 0, [];
    }

    method SetBlockHeight(h: UInt64)
      modifies this
      ensures State() == Report(old(State()).(height := h), HeightUpdate(upstream.groupID, upstream.id, h))
    {
      blockHeight := h;
      reports := reports + [HeightUpdate(upstream.groupID, upstream.id, h)];
    }

    method SetError(err: Option<string>)
      modifies this
      ensures State() == Report(old(State()).(heightError := err), ErrorUpdate(upstream.id, err))
    {
      blockHeightError := err;
      reports := reports + [ErrorUpdate(upstream.id, err)];
    }

    /** `failure` is the outcome of connecting and subscribing. */
    method InitializeWebsockets(failure: Option<string>) returns (listening: bool)
      modifies this
      ensures listening <==> WantsWS(upstream) && failure == None
      ensures State() == ConnectedWS(upstream, old(State()), failure)
    {
      if upstream.wsURL != "" && (upstream.useWSForBlockHeight == None || upstream.useWSForBlockHeight.value) {
        useWSForBlockHeight := true;
        if failure != None {
          webSocketError := failure;
          return false;
        }
        return true;
      }
      return false;
    }

    method InitializeHTTP(failure: Option<string>)
      modifies this
      ensures State() == ConnectedHTTP(upstream, old(State()), failure)
    {
      if failure != None {
        SetError(failure);
        return;
      }
      httpClient := true;
    }

    /** Starting is the system's first steps, run undisturbed. */
    method Initialize(wsFailure: Option<string>, httpFailure: Option<string>, ghost s: System) returns (listening: bool)
      requires Shows(s) && s.poller.BeforeWS?
      modifies this
      ensures var run := StartRun(wsFailure, httpFailure);
        && CanRun(s, run)
        && Shows(After(s, run)) && After(s, run).poller.Idle?
        && (listening <==> After(s, run).listener.Listening?)
      ensures listening <==> WantsWS(upstream) && wsFailure == None
      ensures WantsWS(upstream) ==> useWSForBlockHeight
      ensures WantsWS(upstream) && wsFailure.Some? ==> webSocketError == wsFailure
      ensures httpFailure == None ==> httpClient && reports == old(reports)
      ensures httpFailure.Some? ==>
        blockHeightError == httpFailure && reports == old(reports) + [ErrorUpdate(upstream.id, httpFailure)]
      ensures blockHeight == old(blockHeight)
    {
      listening := InitializeWebsockets(wsFailure);
      InitializeHTTP(httpFailure);
      StartRunLeads(s, wsFailure, httpFailure);
    }

    /** The handler of a new head is the listener's steps, run undisturbed. */
    method OnNewHead(h: UInt64, ghost s: System)
      requires Shows(s) && s.listener.Listening?
      modifies this
      ensures var run := Then(HandlerRun(Head(h), HEAD_WRITES), HandlerReturn);
        CanRun(s, run) && Shows(After(s, run)) && After(s, run).listener.Listening? && After(s, run).poller == s.poller
      ensures blockHeight == h && webSocketError == None && blockHeightError == None
      ensures reports == old(reports) + [HeightUpdate(upstream.groupID, upstream.id, h), ErrorUpdate(upstream.id, None)]
    {
      SetBlockHeight(h);
      webSocketError := None;
      SetError(None);
      HeadRunLeads(s, h, HEAD_WRITES);
      AfterHeadWrites(upstream, old(State()), h);
      var first, second := HeightUpdate(upstream.groupID, upstream.id, h), ErrorUpdate(upstream.id, None);
      assert old(reports) + [first] + [second] == old(reports) + [first, second];
    }

    /** The handler of a failed subscription likewise. */
    method OnError(failure: string, ghost s: System)
      requires Shows(s) && s.listener.Listening?
      modifies this
      ensures var run := Then(HandlerRun(Fail(failure), FAIL_WRITES), HandlerReturn);
        CanRun(s, run) && Shows(After(s, run)) && After(s, run).listener.Ended? && After(s, run).poller == s.poller
      ensures blockHeight == old(blockHeight) && webSocketError == blockHeightError == Some(failure)
      ensures reports == old(reports) + [ErrorUpdate(upstream.id, Some(failure))]
    {
      webSocketError := Some(failure);
      SetError(webSocketError);
      FailRunLeads(s, failure, FAIL_WRITES);
      AfterFailureWrites(upstream, old(State()), failure);
    }

    method RunCheckHTTP(reply: PollReply)
      modifies this
      ensures State() == if old(httpClient) then Polled(upstream, old(State()), reply) else old(State())
    {
      if !httpClient {
        return;
      }
      if reply.Failure? {
        blockHeightError := Some(reply.error);
        return;
      }
      blockHeightError := None;
      SetBlockHeight(reply.height);
    }

    /** A check is the poller's steps, run undisturbed. `failure` is the outcome of getting an HTTP
        client, if one is still missing. */
    method RunCheck(failure: Option<string>, reply: PollReply, ghost s: System)
      requires Shows(s) && s.poller.Idle?
      modifies this
      ensures var run := CheckRun(s.fields, failure, reply);
        && CanRun(s, run)
        && Shows(After(s, run)) && After(s, run).poller.Idle? && After(s, run).listener == s.listener
      ensures useWSForBlockHeight == old(useWSForBlockHeight) && webSocketError == old(webSocketError)
      ensures old(useWSForBlockHeight && webSocketError == None) ==> State() == old(State())
      ensures !old(useWSForBlockHeight && webSocketError == None) && !old(httpClient) && failure.Some? ==>
        && !httpClient && blockHeight == old(blockHeight) && blockHeightError == failure
        && reports == old(reports) + [ErrorUpdate(upstream.id, failure)]
      ensures !old(useWSForBlockHeight && webSocketError == None) && (old(httpClient) || failure == None) ==>
        && httpClient
        && match reply
           case Header(h) =>
             && blockHeight == h && blockHeightError == None
             && reports == old(reports) + [HeightUpdate(upstream.groupID, upstream.id, h)]
           case Failure(e) =>
             blockHeight == old(blockHeight) && blockHeightError == Some(e) && reports == old(reports)
    {
      if !useWSForBlockHeight || (useWSForBlockHeight && webSocketError != None) {
        if !httpClient {
          InitializeHTTP(failure);
        }
        RunCheckHTTP(reply);
      }
      CheckRunLeads(s, failure, reply);
    }
  }

  function ConnectedHTTP(u: UpstreamConfig, f: Fields, failure: Option<string>): Fields {
    if failure.Some? then Report(f.(heightError := failure), ErrorUpdate(u.id, failure))
    else f.(hasHTTPClient := true)
  }

  function AfterHead(u: UpstreamConfig, f: Fields, h: UInt64, n: nat): Fields {
    if n == 0 then f else HeadWrite(u, AfterHead(u, f, h, n - 1), h, n - 1)
  }

  lemma AfterHeadWrites(u: UpstreamConfig, f: Fields, h: UInt64)
    ensures AfterHead(u, f, h, HEAD_WRITES) == f.(
      height := h, webSocketError := None, heightError := None,
      reports := f.reports + [HeightUpdate(u.groupID, u.id, h)] + [ErrorUpdate(u.id, None)])
  {
    assert AfterHead(u, f, h, 1) == HeadWrite(u, AfterHead(u, f, h, 0), h, 0);
    assert AfterHead(u, f, h, 2) == HeadWrite(u, AfterHead(u, f, h, 1), h, 1);
    assert AfterHead(u, f, h, 3) == HeadWrite(u, AfterHead(u, f, h, 2), h, 2);
    assert AfterHead(u, f, h, 4) == HeadWrite(u, AfterHead(u, f, h, 3), h, 3);
  }

  function AfterFailure(u: UpstreamConfig, f: Fields, failure: string, n: nat): Fields {
    if n == 0 then f else FailWrite(u, AfterFailure(u, f, failure, n - 1), failure, n - 1)
  }

  lemma AfterFailureWrites(u: UpstreamConfig, f: Fields, failure: string)
    ensures AfterFailure(u, f, failure, FAIL_WRITES) == f.(
      webSocketError := Some(failure), heightError := Some(failure),
      reports := f.reports + [ErrorUpdate(u.id, Some(failure))])
  {
    assert AfterFailure(u, f, failure, 1) == FailWrite(u, AfterFailure(u, f, failure, 0), failure, 0);
    assert AfterFailure(u, f, failure, 2) == FailWrite(u, AfterFailure(u, f, failure, 1), failure, 1);
  }

  /** A failed poll touches nothing but the checker's own error. */
  function Polled(u: UpstreamConfig, f: Fields, reply: PollReply): Fields {
    match reply
    case Failure(error) => f.(heightError := Some(error))
    case Header(h) => Report(f.(heightError := None, height := h), HeightUpdate(u.groupID, u.id, h))
  }

  function Checked(u: UpstreamConfig, f: Fields, failure: Option<string>, reply: PollReply): Fields {
    if !TakesHTTP(f) then f
    else
      var g := if f.hasHTTPClient then f else ConnectedHTTP(u, f, failure);
      if g.hasHTTPClient then Polled(u, g, reply) else g
  }
}
