/** The response cache over time: requests, delayed writes, local copies and expiry, in any
    interleaving. */
module CacheProtocol {
  import opened Wrappers
  import opened RequestExecutor

  /** Where a cached request stands. `AskingRedis`: there was no local copy. `Filling`: Redis has
      answered, the local copy is not yet made. `Fetching` is the first call to the origin,
      `Retrying` the second, uncached one. */
  datatype Phase =
    | Asking
    | AskingRedis
    | Filling(value: string)
    | Fetching
    | Retrying
    | Done(answer: Fetched)

  datatype Client = Client(request: Request, phase: Phase)

  /** What has happened, for the record. */
  datatype Event =
    | Replied(key: string, reply: OriginReply)
    | Served(key: string, request: Request, response: Response)

  datatype State = State(
    chain: string,
    local: map<string, string>,
    redis: map<string, string>,
    pending: seq<Write>,
    clients: seq<Client>,
    log: seq<Event>)

  datatype Step =
    | Arrive(request: Request)
    | HitLocal(client: nat)
    | MissLocal(client: nat)
    | ReadRedis(client: nat)
    | Fill(client: nat)
    | MissRedis(client: nat)
    | Reply(client: nat, reply: OriginReply)
    | Retry(client: nat, retried: OriginReply)
    | StoreLocal(write: nat)
    | StoreRedis(write: nat)
    | Lose(write: nat)
    | StoreForeign(key: string, value: string)
    | ExpireLocal(key: string)
    | ExpireRedis(key: string)

  function Empty(chain: string): State {
    State(chain, map[], map[], [], [], [])
  }

  predicate IsAsking(s: State, c: nat) {
    c < |s.clients| && s.clients[c].phase.Asking?
  }

  function KeyOf(s: State, c: nat): string
    requires c < |s.clients|
  {
    Key(s.chain, s.clients[c].request)
  }

  /** Redis may fail to answer although the key is there. Entries may vanish and writes may be
      lost at any time; and other chains write under keys of their own. */
  predicate Enabled(s: State, step: Step) {
    match step
    case Arrive(_) => true
    case HitLocal(c) => IsAsking(s, c) && KeyOf(s, c) in s.local
    case MissLocal(c) => IsAsking(s, c) && KeyOf(s, c) !in s.local
    case ReadRedis(c) => c < |s.clients| && s.clients[c].phase.AskingRedis? && KeyOf(s, c) in s.redis
    case Fill(c) => c < |s.clients| && s.clients[c].phase.Filling?
    case MissRedis(c) => c < |s.clients| && s.clients[c].phase.AskingRedis?
    case Reply(c, _) => c < |s.clients| && s.clients[c].phase.Fetching?
    case Retry(c, _) => c < |s.clients| && s.clients[c].phase.Retrying?
    case StoreLocal(w) => w < |s.pending| && !s.pending[w].inLocal
    case StoreRedis(w) => w < |s.pending| && s.pending[w].inLocal
    case Lose(w) => w < |s.pending|
    case StoreForeign(k, _) => !IsKeyOf(s.chain, k)
    case ExpireLocal(k) => k in s.local
    case ExpireRedis(k) => k in s.redis
  }

  function Move(s: State, c: nat, phase: Phase): State
    requires c < |s.clients|
  {
    s.(clients := s.clients[c := s.clients[c].(phase := phase)])
  }

  /** A client gets a cached value: under its own id and version, or a panic if it has no id. */
  function Serve(s: State, c: nat, v: string): State
    requires c < |s.clients|
  {
    var r := s.clients[c].request;
    if r.id == None then Move(s, c, Done(Fetched(NoBody, None, Some(NilIDPanic))))
    else
      var response := Response(None, r.version, Some(v), r.id.value);
      Move(s, c, Done(Fetched(SingleBody(response), Some(STATUS_OK), None))).(
        log := s.log + [Served(KeyOf(s, c), r, response)])
  }

  function Do(s: State, step: Step): State
    requires Enabled(s, step)
  {
    match step
    case Arrive(r) => s.(clients := s.clients + [Client(r, Asking)])
    case HitLocal(c) => Serve(s, c, s.local[KeyOf(s, c)])
    case MissLocal(c) => Move(s, c, AskingRedis)
    case ReadRedis(c) => Move(s, c, Filling(s.redis[KeyOf(s, c)]))
    case Fill(c) =>
      var v := s.clients[c].phase.value;
      Serve(s, c, v).(local := s.local[KeyOf(s, c) := v])
    case MissRedis(c) => Move(s, c, Fetching)
    case Reply(c, reply) =>
      var k := KeyOf(s, c);
      Move(s, c, if IsNotSingle(reply) then Retrying else Done(Interpret(reply))).(
        log := s.log + [Replied(k, reply)],
        pending := s.pending + if Storable(reply).Some? then [Write(k, Storable(reply).value, false)] else [])
    case Retry(c, reply) => Move(s, c, Done(Interpret(reply)))
    case StoreLocal(w) =>
      var Write(k, v, _) := s.pending[w];
      s.(pending := s.pending[w := Write(k, v, true)], local := s.local[k := v])
    case StoreRedis(w) =>
      var Write(k, v, _) := s.pending[w];
      s.(pending := s.pending[..w] + s.pending[w + 1..], redis := if k in s.redis then s.redis else s.redis[k := v])
    case Lose(w) => s.(pending := s.pending[..w] + s.pending[w + 1..])
    case StoreForeign(k, v) => s.(redis := if k in s.redis then s.redis else s.redis[k := v])
    case ExpireLocal(k) => s.(local := s.local - {k})
    case ExpireRedis(k) => s.(redis := s.redis - {k})
  }

  /** The steps can be taken one after another. */
  predicate CanRun(s: State, run: Run<Step>)
    decreases run, 0
  {
    run.Then? ==> CanRun(s, run.before) && Enabled(After(s, run.before), run.step)
  }

  /** Where they lead. */
  function After(s: State, run: Run<Step>): State
    requires CanRun(s, run)
    decreases run, 1
  {
    match run
    case Begin => s
    case Then(before, step) => Do(After(s, before), step)
  }

  // ---- What is served ----

  /** Within the first n events, the origin gave this value for this key. */
  ghost predicate Originates(log: seq<Event>, n: nat, key: string, v: string) {
    exists j :: 0 <= j < n && j < |log| && log[j].Replied? && log[j].key == key && Storable(log[j].reply) == Some(v)
  }

  /** A served event is addressed to its requester and carries a value the origin gave before. */
  ghost predicate IsGenuine(chain: string, log: seq<Event>, i: nat)
    requires i < |log| && log[i].Served?
  {
    var Served(key, request, response) := log[i];
    && key == Key(chain, request)
    && request.id == Some(response.id)
    && response.version == request.version
    && response.error == None
    && response.result.Some?
    && Originates(log, i, key, response.result.value)
  }

  /** Everything stored, on its way to being stored, or on its way to a client. */
  ghost predicate ValuesOk(s: State) {
    && (forall k | k in s.local :: Originates(s.log, |s.log|, k, s.local[k]))
    && (forall k | k in s.redis && IsKeyOf(s.chain, k) :: Originates(s.log, |s.log|, k, s.redis[k]))
    && (forall w | 0 <= w < |s.pending| :: Originates(s.log, |s.log|, s.pending[w].key, s.pending[w].value))
    && (forall c | 0 <= c < |s.clients| && s.clients[c].phase.Filling? ::
          Originates(s.log, |s.log|, KeyOf(s, c), s.clients[c].phase.value))
  }

  ghost predicate Inv(s: State) {
    && ValuesOk(s)
    && (forall i | 0 <= i < |s.log| && s.log[i].Served? :: IsGenuine(s.chain, s.log, i))
  }

  lemma OriginatesGrows(log: seq<Event>, more: seq<Event>, n: nat, key: string, v: string)
    requires n <= |log| && Originates(log, n, key, v)
    ensures Originates(log + more, n, key, v)
    ensures Originates(log + more, |log + more|, key, v)
  {
    var j :| 0 <= j < n && log[j].Replied? && log[j].key == key && Storable(log[j].reply) == Some(v);
    assert (log + more)[j] == log[j];
  }

  lemma LogKeepsInv(s: State, e: Event)
    requires Inv(s)
    requires e.Served? ==> IsGenuine(s.chain, s.log + [e], |s.log|)
    ensures Inv(s.(log := s.log + [e]))
  {
    var s', n := s.(log := s.log + [e]), |s.log|;
    forall k | k in s.local ensures Originates(s'.log, n + 1, k, s.local[k]) {
      OriginatesGrows(s.log, [e], n, k, s.local[k]);
    }
    forall k | k in s.redis && IsKeyOf(s.chain, k) ensures Originates(s'.log, n + 1, k, s.redis[k]) {
      OriginatesGrows(s.log, [e], n, k, s.redis[k]);
    }
    forall w | 0 <= w < |s.pending| ensures Originates(s'.log, n + 1, s.pending[w].key, s.pending[w].value) {
      OriginatesGrows(s.log, [e], n, s.pending[w].key, s.pending[w].value);
    }
    forall c | 0 <= c < |s.clients| && s.clients[c].phase.Filling?
      ensures Originates(s'.log, n + 1, KeyOf(s', c), s.clients[c].phase.value)
    {
      OriginatesGrows(s.log, [e], n, KeyOf(s, c), s.clients[c].phase.value);
    }
    forall i | 0 <= i < |s'.log| && s'.log[i].Served? ensures IsGenuine(s.chain, s'.log, i) {
      if i < n {
        assert s'.log[i] == s.log[i] && IsGenuine(s.chain, s.log, i);
        OriginatesGrows(s.log, [e], i, s.log[i].key, s.log[i].response.result.value);
      }
    }
  }

  lemma ServeKeepsInv(s: State, c: nat, v: string)
    requires Inv(s) && c < |s.clients| && Originates(s.log, |s.log|, KeyOf(s, c), v)
    ensures Inv(Serve(s, c, v))
  {
    var s' := Serve(s, c, v);
    var moved := s'.(log := s.log);
    assert Inv(moved);
    if s.clients[c].request.id.Some? {
      var e := s'.log[|s.log|];
      OriginatesGrows(s.log, [e], |s.log|, e.key, v);
      LogKeepsInv(moved, e);
      assert s' == moved.(log := s.log + [e]);
    }
  }

  lemma ReplyKeepsInv(s: State, c: nat, reply: OriginReply)
    requires Inv(s) && Enabled(s, Reply(c, reply))
    ensures Inv(Do(s, Reply(c, reply)))
  {
    var s', e := Do(s, Reply(c, reply)), Replied(KeyOf(s, c), reply);
    LogKeepsInv(s, e);
    forall w | 0 <= w < |s'.pending| ensures Originates(s'.log, |s'.log|, s'.pending[w].key, s'.pending[w].value) {
      if w < |s.pending| {
        assert s'.pending[w] == s.pending[w];
      } else {
        assert s'.log[|s.log|] == e;
      }
    }
  }

  /** A step that logs nothing moves values around. */
  lemma QuietStepKeepsInv(s: State, step: Step)
    requires Inv(s) && Enabled(s, step) && !step.HitLocal? && !step.Fill? && !step.Reply?
    ensures Inv(Do(s, step))
  {
    var s' := Do(s, step);
    assert s'.log == s.log;
    if step.ReadRedis? {
      KeysAreOwn(s.chain, s.clients[step.client].request);
    }
    forall w | 0 <= w < |s'.pending| ensures Originates(s.log, |s.log|, s'.pending[w].key, s'.pending[w].value) {
      assert s'.pending[w] in s.pending || (w < |s.pending| && s'.pending[w] == s.pending[w].(inLocal := true));
    }
  }

  lemma StepKeepsInv(s: State, step: Step)
    requires Inv(s) && Enabled(s, step)
    ensures Inv(Do(s, step))
  {
    match step
    case HitLocal(c) => ServeKeepsInv(s, c, s.local[KeyOf(s, c)]);
    case Fill(c) =>
      var v := s.clients[c].phase.value;
      var filled := s.(local := s.local[KeyOf(s, c) := v]);
      assert Inv(filled);
      ServeKeepsInv(filled, c, v);
    case Reply(c, reply) => ReplyKeepsInv(s, c, reply);
    case _ => QuietStepKeepsInv(s, step);
  }

  lemma {:induction false} RunKeepsInv(chain: string, run: Run<Step>)
    requires CanRun(Empty(chain), run)
    ensures Inv(After(Empty(chain), run)) && After(Empty(chain), run).chain == chain
  {
    if run.Then? {
      RunKeepsInv(chain, run.before);
      StepKeepsInv(After(Empty(chain), run.before), run.step);
    }
  }

  /** Over any run: whatever is served from the cache goes out under its requester's own id and
      version, and is the non-null result of an earlier single, error-free reply of the origin to
      a request with the same key. */
  lemma ServedValuesAreGenuine(chain: string, run: Run<Step>, n: nat) returns (j: nat)
    requires CanRun(Empty(chain), run)
    requires n < |After(Empty(chain), run).log| && After(Empty(chain), run).log[n].Served?
    ensures var log := After(Empty(chain), run).log; var served := log[n];
      && served.request.id == Some(served.response.id)
      && served.response.version == served.request.version
      && served.response.error == None
      && served.key == Key(chain, served.request)
      && j < n && log[j].Replied? && log[j].key == served.key
      && IsSingle(log[j].reply)
      && var origin := log[j].reply.decoded.value.response;
         origin.error == None && origin.result == served.response.result && origin.result != Some("null")
         && origin.result.Some?
  {
    RunKeepsInv(chain, run);
    var log := After(Empty(chain), run).log;
    assert IsGenuine(chain, log, n);
    var Served(key, _, response) := log[n];
    j :| 0 <= j < n && log[j].Replied? && log[j].key == key && Storable(log[j].reply) == Some(response.result.value);
  }

  // ---- When hits agree ----

  /** v is all that can still be served for the key: the local copy, the entry in Redis, what is
      on its way from Redis and what is on its way to Redis all are v, where they are anything. */
  ghost predicate OnlyValue(s: State, key: string, v: string) {
    && (key in s.local ==> s.local[key] == v)
    && (key in s.redis ==> s.redis[key] == v)
    && (forall c | 0 <= c < |s.clients| && KeyOf(s, c) == key && s.clients[c].phase.Filling? ::
          s.clients[c].phase.value == v)
    && (forall w | 0 <= w < |s.pending| && s.pending[w].key == key && s.pending[w].inLocal :: s.pending[w].value == v)
  }

  /** A write of another value for the key lands. */
  predicate StoresOther(s: State, step: Step, key: string, v: string) {
    step.StoreLocal? && step.write < |s.pending| && s.pending[step.write].key == key && s.pending[step.write].value != v
  }

  predicate NoOtherStored(s: State, run: Run<Step>, key: string, v: string)
    requires CanRun(s, run)
  {
    run.Then? ==>
      NoOtherStored(s, run.before, key, v) && !StoresOther(After(s, run.before), run.step, key, v)
  }

  /** Everybody served for the key since the first `from` events got v. */
  ghost predicate ServesOnly(log: seq<Event>, from: nat, key: string, v: string) {
    forall i | from <= i < |log| && log[i].Served? && log[i].key == key :: log[i].response.result == Some(v)
  }

  lemma StepKeepsOnlyValue(s: State, step: Step, key: string, v: string)
    requires Enabled(s, step) && OnlyValue(s, key, v) && !StoresOther(s, step, key, v) && IsKeyOf(s.chain, key)
    ensures OnlyValue(Do(s, step), key, v) && Do(s, step).chain == s.chain
  {
    if IsCacheStep(step) {
      CacheStepKeepsOnlyValue(s, step, key, v);
    } else {
      ClientStepKeepsOnlyValue(s, step, key, v);
    }
  }

  /** A step of the cache's own: of a write, another chain's or the clock. */
  predicate IsCacheStep(step: Step) {
    step.StoreLocal? || step.StoreRedis? || step.Lose? || step.StoreForeign? || step.ExpireLocal? || step.ExpireRedis?
  }

  lemma CacheStepKeepsOnlyValue(s: State, step: Step, key: string, v: string)
    requires Enabled(s, step) && IsCacheStep(step)
    requires OnlyValue(s, key, v) && !StoresOther(s, step, key, v) && IsKeyOf(s.chain, key)
    ensures OnlyValue(Do(s, step), key, v)
  {
  }

  lemma ClientStepKeepsOnlyValue(s: State, step: Step, key: string, v: string)
    requires Enabled(s, step) && !IsCacheStep(step) && OnlyValue(s, key, v)
    ensures OnlyValue(Do(s, step), key, v)
  {
  }

  lemma StepServesOnly(s: State, step: Step, key: string, v: string)
    requires Enabled(s, step) && OnlyValue(s, key, v)
    ensures |s.log| <= |Do(s, step).log| && Do(s, step).log[..|s.log|] == s.log
    ensures ServesOnly(Do(s, step).log, |s.log|, key, v)
  {
  }

  lemma {:induction false} OnlyValueStays(s: State, run: Run<Step>, key: string, v: string)
    requires CanRun(s, run) && OnlyValue(s, key, v) && NoOtherStored(s, run, key, v) && IsKeyOf(s.chain, key)
    ensures OnlyValue(After(s, run), key, v) && After(s, run).chain == s.chain
    ensures |s.log| <= |After(s, run).log| && ServesOnly(After(s, run).log, |s.log|, key, v)
  {
    if run.Then? {
      var t := After(s, run.before);
      OnlyValueStays(s, run.before, key, v);
      StepKeepsOnlyValue(t, run.step, key, v);
      StepServesOnly(t, run.step, key, v);
      var log' := Do(t, run.step).log;
      forall i | |s.log| <= i < |log'| && log'[i].Served? && log'[i].key == key
        ensures log'[i].response.result == Some(v)
      {
        assert i < |t.log| ==> log'[..|t.log|][i] == t.log[i];
      }
    }
  }

  /** A continuation that serves another value, although no other value's write lands in it. */
  ghost predicate OtherServed(s: State, run: Run<Step>, key: string, v: string) {
    && CanRun(s, run) && NoOtherStored(s, run, key, v)
    && exists i :: |s.log| <= i < |After(s, run).log| && IsOther(After(s, run).log[i], key, v)
  }

  predicate IsOther(e: Event, key: string, v: string) {
    e.Served? && e.key == key && e.response.result != Some(v)
  }

  /** The next step of a continuation in which no write of another value lands. */
  lemma RunOn(s: State, run: Run<Step>, step: Step, key: string, v: string)
    requires CanRun(s, run) && NoOtherStored(s, run, key, v)
    requires Enabled(After(s, run), step) && !step.StoreLocal?
    ensures CanRun(s, Then(run, step)) && NoOtherStored(s, Then(run, step), key, v)
    ensures After(s, Then(run, step)) == Do(After(s, run), step)
  {
  }

  /** Another value in the local copy will be served to whoever asks next. */
  lemma LocalIsServed(s: State, run: Run<Step>, r: Request, key: string, v: string) returns (more: Run<Step>)
    requires CanRun(s, run) && NoOtherStored(s, run, key, v)
    requires r.id.Some? && Key(After(s, run).chain, r) == key && |s.log| <= |After(s, run).log|
    requires key in After(s, run).local && After(s, run).local[key] != v
    ensures OtherServed(s, more, key, v)
  {
    var t := After(s, run);
    RunOn(s, run, Arrive(r), key, v);
    more := Then(run, Arrive(r));
    RunOn(s, more, HitLocal(|t.clients|), key, v);
    more := Then(more, HitLocal(|t.clients|));
    assert IsOther(After(s, more).log[|t.log|], key, v);
  }

  /** An entry of Redis becomes the local copy of a key that has none, whoever asks for it. */
  lemma RedisBecomesLocal(s: State, run: Run<Step>, r: Request, key: string, v: string) returns (more: Run<Step>)
    requires CanRun(s, run) && NoOtherStored(s, run, key, v)
    requires Key(After(s, run).chain, r) == key
    requires key !in After(s, run).local && key in After(s, run).redis
    ensures CanRun(s, more) && NoOtherStored(s, more, key, v)
    ensures var t, t' := After(s, run), After(s, more);
      t'.chain == t.chain && |t.log| <= |t'.log| && t'.local == t.local[key := t.redis[key]]
  {
    var n := |After(s, run).clients|;
    RunOn(s, run, Arrive(r), key, v);
    more := Then(run, Arrive(r));
    RunOn(s, more, MissLocal(n), key, v);
    more := Then(more, MissLocal(n));
    RunOn(s, more, ReadRedis(n), key, v);
    more := Then(more, ReadRedis(n));
    RunOn(s, more, Fill(n), key, v);
    more := Then(more, Fill(n));
  }

  /** Another value in Redis will be served too, once the local copy is gone. */
  lemma RedisIsServed(s: State, run: Run<Step>, r: Request, key: string, v: string) returns (more: Run<Step>)
    requires CanRun(s, run) && NoOtherStored(s, run, key, v)
    requires r.id.Some? && Key(After(s, run).chain, r) == key && |s.log| <= |After(s, run).log|
    requires key in After(s, run).redis && After(s, run).redis[key] != v
    ensures OtherServed(s, more, key, v)
  {
    more := run;
    if key in After(s, run).local {
      RunOn(s, run, ExpireLocal(key), key, v);
      more := Then(run, ExpireLocal(key));
    }
    more := RedisBecomesLocal(s, more, r, key, v);
    more := LocalIsServed(s, more, r, key, v);
  }

  /** If v is not all that can be served, something else will be. */
  lemma OtherCanBeServed(s: State, r: Request, key: string, v: string) returns (run: Run<Step>)
    requires r.id.Some? && Key(s.chain, r) == key && !OnlyValue(s, key, v)
    ensures OtherServed(s, run, key, v)
  {
    run := Begin;
    if key in s.local && s.local[key] != v {
      run := LocalIsServed(s, run, r, key, v);
    } else if key in s.redis && s.redis[key] != v {
      run := RedisIsServed(s, run, r, key, v);
    } else if c :| 0 <= c < |s.clients| && KeyOf(s, c) == key && s.clients[c].phase.Filling?
                   && s.clients[c].phase.value != v {
      RunOn(s, run, Fill(c), key, v);
      run := LocalIsServed(s, Then(run, Fill(c)), r, key, v);
    } else {
      var w :| 0 <= w < |s.pending| && s.pending[w].key == key && s.pending[w].inLocal && s.pending[w].value != v;
      if key in s.redis {
        RunOn(s, run, ExpireRedis(key), key, v);
        run := Then(run, ExpireRedis(key));
      }
      RunOn(s, run, StoreRedis(w), key, v);
      run := RedisIsServed(s, Then(run, StoreRedis(w)), r, key, v);
    }
  }

  /** Exactly when hits agree: until a write of another value lands, everybody is served v if and
      only if v is all that the two levels, and what is under way between them, hold for the key.
      Expiry does not matter on the one side and is what reveals the other value on the other. */
  lemma HitsAgreeIff(s: State, r: Request, v: string)
    requires r.id.Some?
    ensures var key := Key(s.chain, r);
      OnlyValue(s, key, v) <==> forall run: Run<Step> :: !OtherServed(s, run, key, v)
  {
    var key := Key(s.chain, r);
    KeysAreOwn(s.chain, r);
    if OnlyValue(s, key, v) {
      forall run: Run<Step> ensures !OtherServed(s, run, key, v) {
        if CanRun(s, run) && NoOtherStored(s, run, key, v) {
          OnlyValueStays(s, run, key, v);
        }
      }
    } else {
      var run := OtherCanBeServed(s, r, key, v);
    }
  }

  /** The run contains the step. */
  predicate Takes(run: Run<Step>, step: Step) {
    run.Then? && (run.step == step || Takes(run.before, step))
  }

  /** Set-if-absent is what Redis does: until an entry expires there, it stays. */
  lemma {:induction false} RedisKeepsFirst(s: State, run: Run<Step>, key: string)
    requires CanRun(s, run) && key in s.redis && !Takes(run, ExpireRedis(key))
    ensures key in After(s, run).redis && After(s, run).redis[key] == s.redis[key]
  {
    if run.Then? {
      RedisKeepsFirst(s, run.before, key);
    }
  }

  predicate NothingExpires(run: Run<Step>) {
    run.Then? ==> NothingExpires(run.before) && !run.step.ExpireLocal? && !run.step.ExpireRedis?
  }

  /** A local copy of v1, and a spawned write of v2 for the same key: the next hit gets v1, the one
      after that v2, and nothing has expired in between. */
  lemma LosingWriteIsServed(s: State, r: Request, w: nat, v2: string) returns (run: Run<Step>)
    requires r.id.Some? && w < |s.pending| && s.pending[w] == Write(Key(s.chain, r), v2, false)
    requires Key(s.chain, r) in s.local
    ensures CanRun(s, run) && NothingExpires(run)
    ensures var log := After(s, run).log;
      && |log| == |s.log| + 2
      && log[|s.log|].Served? && log[|s.log|].response.result == Some(s.local[Key(s.chain, r)])
      && log[|s.log| + 1].Served? && log[|s.log| + 1].response.result == Some(v2)
  {
    var n := |s.clients|;
    var asked := Then(Begin, Arrive(r));
    assert NothingExpires(asked) && CanRun(s, asked);
    var hit := Then(asked, HitLocal(n));
    assert NothingExpires(hit) && CanRun(s, hit);
    assert After(s, hit).local == s.local && After(s, hit).pending == s.pending;
    var written := Then(hit, StoreLocal(w));
    assert NothingExpires(written) && CanRun(s, written);
    var again := Then(written, Arrive(r));
    assert NothingExpires(again) && CanRun(s, again);
    assert After(s, again).clients == After(s, hit).clients + [Client(r, Asking)];
    run := Then(again, HitLocal(n + 1));
  }

  function SingleReply(v: string): OriginReply {
    Received(STATUS_OK, Some(SingleBody(Response(None, "2.0", Some(v), 1))))
  }

  /** A request that misses and is answered by the origin. */
  lemma MissReaches(s: State, run: Run<Step>, r: Request, v: string) returns (more: Run<Step>)
    requires CanRun(s, run) && NothingExpires(run) && Key(After(s, run).chain, r) !in After(s, run).local && v != "null"
    ensures CanRun(s, more) && NothingExpires(more)
    ensures var t, t' := After(s, run), After(s, more);
      && t'.chain == t.chain && t'.local == t.local && t'.redis == t.redis
      && t'.pending == t.pending + [Write(Key(t.chain, r), v, false)]
  {
    var n := |After(s, run).clients|;
    more := Misses(s, run, r);
    assert NothingExpires(Then(run, Arrive(r))) && NothingExpires(Then(Then(run, Arrive(r)), MissLocal(n)));
    assert NothingExpires(more);
    more := Then(more, Reply(n, SingleReply(v)));
  }

  /** A request that finds nothing goes to the origin. */
  lemma Misses(s: State, run: Run<Step>, r: Request) returns (more: Run<Step>)
    requires CanRun(s, run) && Key(After(s, run).chain, r) !in After(s, run).local
    ensures var t := After(s, run);
      && more == Then(Then(Then(run, Arrive(r)), MissLocal(|t.clients|)), MissRedis(|t.clients|))
      && CanRun(s, more)
      && After(s, more) == t.(clients := t.clients + [Client(r, Fetching)])
  {
    var t := After(s, run);
    var n := |t.clients|;
    more := Then(run, Arrive(r));
    assert CanRun(s, more) && After(s, more) == t.(clients := t.clients + [Client(r, Asking)]);
    more := Then(more, MissLocal(n));
    assert CanRun(s, more) && After(s, more) == t.(clients := t.clients + [Client(r, AskingRedis)]);
    more := Then(more, MissRedis(n));
  }

  /** Such states are reached, without any expiry, by two requests that miss before either write
      lands: so hits can disagree although nothing expired. */
  lemma TwoMissesRace(chain: string, r: Request, v1: string, v2: string) returns (run: Run<Step>)
    requires v1 != "null" && v2 != "null"
    ensures CanRun(Empty(chain), run) && NothingExpires(run)
    ensures var t, key := After(Empty(chain), run), Key(chain, r);
      t.chain == chain && t.local == map[key := v1] && t.redis == map[key := v1] && t.pending == [Write(key, v2, false)]
  {
    run := MissReaches(Empty(chain), Begin, r, v1);
    run := MissReaches(Empty(chain), run, r, v2);
    run := Then(Then(run, StoreLocal(0)), StoreRedis(0));
    assert CanRun(Empty(chain), run.before);
  }

  /** How many calls to the origin a request may still make. */
  function Calls(phase: Phase): nat {
    match phase
    case Fetching => 2
    case Retrying => 1
    case Done(_) => 0
    case _ => 2
  }

  /** The steps that call the origin on behalf of client c. */
  predicate CallsOrigin(step: Step, c: nat) {
    (step.Reply? || step.Retry?) && step.client == c
  }

  function CallCount(run: Run<Step>, c: nat): nat {
    match run
    case Begin => 0
    case Then(before, step) => CallCount(before, c) + if CallsOrigin(step, c) then 1 else 0
  }

  lemma StepSpendsCalls(s: State, step: Step, c: nat)
    requires Enabled(s, step)
    ensures var s' := Do(s, step); var spent := if CallsOrigin(step, c) then 1 else 0;
      && (c < |s.clients| ==> c < |s'.clients| && spent + Calls(s'.clients[c].phase) <= Calls(s.clients[c].phase))
      && (c >= |s.clients| ==> spent == 0 && (c < |s'.clients| ==> Calls(s'.clients[c].phase) == 2))
  {
  }

  /** No request calls the origin more than twice, and one that the cache answers never does: it
      is still asking when it is served. */
  lemma {:induction false} AtMostTwoCalls(chain: string, run: Run<Step>, c: nat)
    requires CanRun(Empty(chain), run)
    ensures var s := After(Empty(chain), run);
      && (c < |s.clients| ==> CallCount(run, c) + Calls(s.clients[c].phase) <= 2)
      && (c >= |s.clients| ==> CallCount(run, c) == 0)
  {
    if run.Then? {
      AtMostTwoCalls(chain, run.before, c);
      StepSpendsCalls(After(Empty(chain), run.before), run.step, c);
    }
  }

  // ---- The executor takes these steps ----

  function Entries(m: map<string, string>): map<string, Option<string>> {
    map k | k in m :: Some(m[k])
  }

  /** The cache object is in this state. */
  ghost predicate Represents(cache: RPCCache, s: State)
    reads cache
  {
    cache.local == Entries(s.local) && cache.redis == Entries(s.redis) && cache.pending == s.pending
  }

  lemma EntriesUpdate(m: map<string, string>, key: string, v: string)
    ensures Entries(m[key := v]) == Entries(m)[key := Some(v)]
    ensures (key in Entries(m) <==> key in m) && (key in m ==> Entries(m)[key] == Some(m[key]))
  {
  }

  /** The steps of one request that runs undisturbed, from its arrival. */
  function RunOf(s: State, r: Request, redisFails: bool, first: OriginReply, second: OriginReply): Run<Step> {
    var n, key := |s.clients|, Key(s.chain, r);
    var arrived := Then(Begin, Arrive(r));
    var missed := Then(arrived, MissLocal(n));
    if key in s.local then Then(arrived, HitLocal(n))
    else if !redisFails && key in s.redis then Then(Then(missed, ReadRedis(n)), Fill(n))
    else
      var replied := Then(Then(missed, MissRedis(n)), Reply(n, first));
      if IsNotSingle(first) then Then(replied, Retry(n, second)) else replied
  }

  /** Where they lead, and how often they call the origin. */
  lemma FoundRun(s: State, r: Request, redisFails: bool, first: OriginReply, second: OriginReply)
    requires Key(s.chain, r) in s.local || (!redisFails && Key(s.chain, r) in s.redis)
    ensures var n, key := |s.clients|, Key(s.chain, r);
      var v := if key in s.local then s.local[key] else s.redis[key];
      var run := RunOf(s, r, redisFails, first, second);
      && CanRun(s, run) && CallCount(run, n) == 0
      && After(s, run) == Serve(s.(clients := s.clients + [Client(r, Asking)]), n, v).(local := s.local[key := v])
  {
    var n, key := |s.clients|, Key(s.chain, r);
    var arrived := Then(Begin, Arrive(r));
    assert CallCount(arrived, n) == 0;
    assert CanRun(s, arrived);
    assert After(s, arrived) == s.(clients := s.clients + [Client(r, Asking)]);
    if key in s.local {
      assert s.local[key := s.local[key]] == s.local;
    } else {
      var missed := Then(arrived, MissLocal(n));
      assert CanRun(s, missed) && CallCount(missed, n) == 0;
      assert After(s, missed).clients == s.clients + [Client(r, AskingRedis)];
      var asked := Then(missed, ReadRedis(n));
      assert CanRun(s, asked) && CallCount(asked, n) == 0;
      assert After(s, asked).clients == s.clients + [Client(r, Filling(s.redis[key]))];
    }
  }

  /** What a first reply leads to, the retry included. */
  function Replies(s: State, r: Request, first: OriginReply, second: OriginReply): State {
    var key := Key(s.chain, r);
    s.(clients := s.clients + [Client(r, Done(Interpret(if IsNotSingle(first) then second else first)))],
       log := s.log + [Replied(key, first)],
       pending := s.pending + if Storable(first).Some? then [Write(key, Storable(first).value, false)] else [])
  }

  lemma RepliesSteps(s: State, r: Request, first: OriginReply, second: OriginReply)
    ensures var n := |s.clients|;
      var fetching := s.(clients := s.clients + [Client(r, Fetching)]);
      && Enabled(fetching, Reply(n, first))
      && var replied := Do(fetching, Reply(n, first));
         if IsNotSingle(first) then
           Enabled(replied, Retry(n, second)) && Do(replied, Retry(n, second)) == Replies(s, r, first, second)
         else replied == Replies(s, r, first, second)
  {
  }

  lemma MissedRun(s: State, r: Request, redisFails: bool, first: OriginReply, second: OriginReply)
    requires Key(s.chain, r) !in s.local && (redisFails || Key(s.chain, r) !in s.redis)
    ensures var n := |s.clients|;
      var run := RunOf(s, r, redisFails, first, second);
      && CanRun(s, run) && CallCount(run, n) == (if IsNotSingle(first) then 2 else 1)
      && After(s, run) == Replies(s, r, first, second)
  {
    var n := |s.clients|;
    assert After(s, Begin) == s && CallCount(Begin, n) == 0;
    var fetching := Misses(s, Begin, r);
    assert CallCount(fetching.before.before, n) == 0 && CallCount(fetching.before, n) == 0;
    assert CallCount(fetching, n) == 0;
    RepliesSteps(s, r, first, second);
    var replied := Then(fetching, Reply(n, first));
    assert CanRun(s, replied) && CallCount(replied, n) == 1;
    assert After(s, replied) == Do(After(s, fetching), Reply(n, first));
  }

  /** The executor is one of the protocol's clients: from any state of the cache, a cached request
      takes the steps above. The cache ends in the state they lead to, the caller gets the answer
      they leave the client with, and the origin is called once for each step that calls it. */
  method RouteInSteps(executor: Executor, r: Request, redisFails: bool, origin: Origin, ghost s: State)
    returns (resp: ResponseBody, http: Option<int>, err: Option<Error>, ghost run: Run<Step>)
    requires executor.IsCached(SingleRequest(r))
    requires s.chain == executor.chainName && Represents(executor.cache, s)
    modifies executor.cache, origin
    ensures CanRun(s, run) && Represents(executor.cache, After(s, run))
    ensures origin.calls == old(origin.calls) + CallCount(run, |s.clients|)
    ensures var clients := After(s, run).clients;
      && |clients| == |s.clients| + 1 && clients[|s.clients|].request == r
      && clients[|s.clients|].phase.Done?
      && var answer := clients[|s.clients|].phase.answer;
         err == answer.err && (err != Some(NilIDPanic) ==> resp == answer.body && http == answer.http)
  {
    ghost var first, second := origin.script(origin.calls), origin.script(origin.calls + 1);
    run := RunOf(s, r, redisFails, first, second);
    ghost var key := Key(s.chain, r);
    EntriesUpdate(s.redis, key, "");
    EntriesUpdate(s.local, key, if key in s.local then s.local[key] else if key in s.redis then s.redis[key] else "");
    if key in s.local || (!redisFails && key in s.redis) {
      FoundRun(s, r, redisFails, first, second);
    } else {
      MissedRun(s, r, redisFails, first, second);
    }
    var cached;
    resp, http, cached, err := executor.RouteToConfig(SingleRequest(r), true, redisFails, origin);
  }

  /** A spawned write is two more of the protocol's steps. */
  method SetInSteps(cache: RPCCache, w: nat, redisFails: bool, ghost s: State) returns (ghost run: Run<Step>)
    requires Represents(cache, s) && w < |s.pending| && !s.pending[w].inLocal
    modifies cache
    ensures CanRun(s, run) && Represents(cache, After(s, run))
  {
    ghost var stored := Then(Begin, StoreLocal(w));
    run := Then(stored, if redisFails then Lose(w) else StoreRedis(w));
    assert After(s, Begin) == s;
    assert CanRun(s, stored);
    ghost var t := After(s, stored);
    assert t.pending[..w] == s.pending[..w] && t.pending[w + 1..] == s.pending[w + 1..];
    cache.Set(cache.pending[w], redisFails);
    cache.pending := cache.pending[..w] + cache.pending[w + 1..];
  }
}
