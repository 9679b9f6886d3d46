/** Sending one request to an upstream, through the response cache when the method is cached. */
module RequestExecutor {
  import opened Wrappers

  /** Parameters are given as the key renders them. An absent id marks a notification. */
  datatype Request = Request(id: Option<int>, version: string, methodName: string, params: seq<string>)

  datatype RequestBody = SingleRequest(request: Request) | BatchRequest(requests: seq<Request>)

  datatype Response = Response(error: Option<string>, version: string, result: Option<string>, id: int)

  /** `NoBody` is the nil body of an empty reply. */
  datatype ResponseBody = NoBody | SingleBody(response: Response) | BatchBody(responses: seq<Response>)

  /** What comes back from one HTTP call: nothing, a status with an unreadable body, or a status
      with a body that decodes or not. */
  datatype OriginReply =
    | TransportFailed
    | Unreadable(status: int)
    | Received(status: int, decoded: Option<ResponseBody>)

  /** `NilIDPanic`: the code dereferences the id of a notification. `BuildError`: the request cannot
      be encoded or made into an HTTP request. */
  datatype Error = BuildError | OriginError | DecodeError | HandledError(response: Response) | OtherError | NilIDPanic

  datatype Fetched = Fetched(body: ResponseBody, http: Option<int>, err: Option<Error>)

  const STATUS_OK := 200
  const STATUS_BAD_REQUEST := 400

  /** `getResponseBody`, after the HTTP call. */
  function Interpret(reply: OriginReply): Fetched {
    match reply
    case TransportFailed => Fetched(NoBody, None, Some(OriginError))
    case Unreadable(status) => Fetched(NoBody, Some(status), Some(OriginError))
    case Received(status, decoded) =>
      if status >= STATUS_BAD_REQUEST then Fetched(NoBody, Some(status), Some(OriginError))
      else if decoded == None then Fetched(NoBody, Some(status), Some(DecodeError))
      else Fetched(decoded.value, Some(status), None)
  }

  /** The reply was read and decoded, but is not a single response. */
  predicate IsNotSingle(reply: OriginReply) {
    reply.Received? && reply.status < STATUS_BAD_REQUEST && reply.decoded.Some? && !reply.decoded.value.SingleBody?
  }

  predicate IsSingle(reply: OriginReply) {
    reply.Received? && reply.status < STATUS_BAD_REQUEST && reply.decoded.Some? && reply.decoded.value.SingleBody?
  }

  /** What a reply lets the cache keep: the result of a single response without error, if there
      is one and it is not null. */
  function Storable(reply: OriginReply): Option<string> {
    if IsSingle(reply) && reply.decoded.value.response.error == None
       && reply.decoded.value.response.result != Some("null")
    then reply.decoded.value.response.result
    else None
  }

  /** Exactly what may be kept: the result of a single response below status 400 that has one, other
      than null, and no error. */
  lemma StorableIff(reply: OriginReply, v: string)
    ensures Storable(reply) == Some(v) <==>
      && reply.Received? && reply.status < 400 && reply.decoded.Some? && reply.decoded.value.SingleBody?
      && reply.decoded.value.response.error == None
      && reply.decoded.value.response.result == Some(v) && v != "null"
  {
  }

  // ---- Request keys ----

  /** `strings.Join`. */
  function Join(parts: seq<string>, sep: string): string {
    if parts == [] then ""
    else if |parts| == 1 then parts[0]
    else parts[0] + sep + Join(parts[1..], sep)
  }

  function Key(chainName: string, r: Request): string {
    chainName + ":" + (r.methodName + ":" + ("[" + Join(r.params, ",") + "]"))
  }

  method CreateRequestKey(chainName: string, r: Request) returns (key: string)
    ensures key == Key(chainName, r)
  {
    var elements := new string[|r.params|](_ => "");
    for i := 0 to |r.params|
      invariant elements[..i] == r.params[..i]
    {
      elements[i] := r.params[i];
    }
    assert elements[..] == r.params;
    var paramsStr := "[" + Join(elements[..], ",") + "]";
    key := chainName + ":" + (r.methodName + ":" + paramsStr);
  }

  ghost predicate Free(s: string, c: char) {
    forall i | 0 <= i < |s| :: s[i] != c
  }

  /** A separator that does not occur on the left splits a string in one way only. */
  lemma SplitsOnce(a: string, x: string, b: string, y: string, c: char)
    requires Free(a, c) && Free(b, c) && a + [c] + x == b + [c] + y
    ensures a == b && x == y
  {
    var s := a + [c] + x;
    assert s[|a|] == c && s[|b|] == c;
    assert forall i | 0 <= i < |a| :: s[i] == a[i];
    assert forall i | 0 <= i < |b| :: s[i] == b[i];
    assert |a| == |b|;
    assert a == s[..|a|] && b == s[..|b|];
    assert x == s[|a| + 1..] && y == s[|b| + 1..];
  }

  /** A string cut at its commas. */
  function Split(s: string): (pieces: seq<string>)
    ensures pieces != []
  {
    if s == "" then [""]
    else if s[0] == ',' then [""] + Split(s[1..])
    else
      var rest := Split(s[1..]);
      [[s[0]] + rest[0]] + rest[1..]
  }

  /** All parameters cut at their commas; no parameter looks like one empty one. */
  function Pieces(params: seq<string>): seq<string> {
    if params == [] then [""]
    else if |params| == 1 then Split(params[0])
    else Split(params[0]) + Pieces(params[1..])
  }

  /** Cutting "a,b" is cutting a, then cutting b. */
  lemma {:induction false} SplitConcat(a: string, b: string)
    ensures Split(a + "," + b) == Split(a) + Split(b)
  {
    var s := a + "," + b;
    if a == "" {
      assert s[1..] == b;
    } else {
      assert s[0] == a[0] && s[1..] == a[1..] + "," + b;
      SplitConcat(a[1..], b);
    }
  }

  lemma {:induction false} SplitJoin(params: seq<string>)
    ensures Split(Join(params, ",")) == Pieces(params)
  {
    if |params| > 1 {
      SplitJoin(params[1..]);
      SplitConcat(params[0], Join(params[1..], ","));
      assert params[0] + "," + Join(params[1..], ",") == Join(params, ",");
    }
  }

  /** A character in front of the first piece is one in front of the joined pieces. */
  lemma JoinInFront(c: char, pieces: seq<string>)
    requires pieces != []
    ensures Join([[c] + pieces[0]] + pieces[1..], ",") == [c] + Join(pieces, ",")
  {
    var more := [[c] + pieces[0]] + pieces[1..];
    assert more[0] == [c] + pieces[0] && more[1..] == pieces[1..];
  }

  lemma {:induction false} JoinSplit(s: string)
    ensures Join(Split(s), ",") == s
  {
    if s != "" {
      JoinSplit(s[1..]);
      var rest := Split(s[1..]);
      if s[0] == ',' {
        assert ([""] + rest)[1..] == rest;
      } else {
        JoinInFront(s[0], rest);
      }
    }
  }

  /** Joined parameter lists are the same string exactly when they have the same pieces. */
  lemma JoinsCollideIff(a: seq<string>, b: seq<string>)
    ensures Join(a, ",") == Join(b, ",") <==> Pieces(a) == Pieces(b)
  {
    SplitJoin(a);
    SplitJoin(b);
    JoinSplit(Join(a, ","));
    JoinSplit(Join(b, ","));
  }

  /** What a key holds in front of its parameters. */
  function Head(chainName: string, r: Request): string {
    chainName + ":" + r.methodName
  }

  lemma KeyParts(chainName: string, r: Request)
    ensures Key(chainName, r) == Head(chainName, r) + ":[" + Join(r.params, ",") + "]"
  {
    var j := "[" + Join(r.params, ",") + "]";
    assert ":" + j == ":[" + Join(r.params, ",") + "]";
    assert chainName + ":" + (r.methodName + ":" + j) == (chainName + ":" + r.methodName) + (":" + j);
  }

  /** The second head goes on where the first request already lists its parameters. */
  ghost predicate RunsInto(head1: string, joined1: string, head2: string, joined2: string) {
    exists z: string :: head2 == head1 + ":[" + z && joined1 == z + ":[" + joined2
  }

  lemma SameHeadOrRunsInto(h1: string, j1: string, h2: string, j2: string)
    requires h1 + ":[" + j1 == h2 + ":[" + j2 && |h1| <= |h2|
    ensures (h1 == h2 && j1 == j2) || RunsInto(h1, j1, h2, j2)
  {
    var s := h1 + ":[" + j1;
    assert s[..|h1|] == h1 && h2[..|h1|] == s[..|h1|];
    assert s[|h1| + 1] == '[' && s[|h2|] == ':' && |h2| != |h1| + 1;
    if |h1| == |h2| {
      assert h1 == h2;
      assert s[|h1| + 2..] == j1 && (h2 + ":[" + j2)[|h2| + 2..] == j2;
    } else {
      var z := h2[|h1| + 2..];
      assert s[|h1|..|h1| + 2] == ":[" && h2[|h1|..|h1| + 2] == s[|h1|..|h1| + 2];
      assert h2 == h1 + ":[" + z;
      assert s[|h1| + 2..] == j1 && (h2 + ":[" + j2)[|h1| + 2..] == z + ":[" + j2;
    }
  }

  lemma RunsIntoSame(h1: string, j1: string, h2: string, j2: string)
    requires RunsInto(h1, j1, h2, j2)
    ensures h1 + ":[" + j1 == h2 + ":[" + j2
  {
    var z: string :| h2 == h1 + ":[" + z && j1 == z + ":[" + j2;
    assert h1 + ":[" + (z + ":[" + j2) == (h1 + ":[" + z) + ":[" + j2;
  }

  /** When two requests share a key, whatever their names and parameters are: they have the same
      head and the same pieces, or the head of one runs into the parameters of the other. */
  lemma KeysCollideIff(chain1: string, r1: Request, chain2: string, r2: Request)
    ensures Key(chain1, r1) == Key(chain2, r2) <==>
      var h1, j1, h2, j2 := Head(chain1, r1), Join(r1.params, ","), Head(chain2, r2), Join(r2.params, ",");
      || (h1 == h2 && Pieces(r1.params) == Pieces(r2.params))
      || RunsInto(h1, j1, h2, j2)
      || RunsInto(h2, j2, h1, j1)
  {
    var h1, j1, h2, j2 := Head(chain1, r1), Join(r1.params, ","), Head(chain2, r2), Join(r2.params, ",");
    KeyParts(chain1, r1);
    KeyParts(chain2, r2);
    JoinsCollideIff(r1.params, r2.params);
    var s1, s2 := h1 + ":[" + j1, h2 + ":[" + j2;
    assert s1 == (s1 + "]")[..|s1|] && s2 == (s2 + "]")[..|s2|];
    if s1 == s2 && |h1| <= |h2| {
      SameHeadOrRunsInto(h1, j1, h2, j2);
    } else if s1 == s2 {
      SameHeadOrRunsInto(h2, j2, h1, j1);
    }
    if RunsInto(h1, j1, h2, j2) {
      RunsIntoSame(h1, j1, h2, j2);
    } else if RunsInto(h2, j2, h1, j1) {
      RunsIntoSame(h2, j2, h1, j1);
    }
  }

  /** For chain and method names without colons: same chain, same method, same pieces. */
  lemma PlainKeysCollideIff(chain1: string, r1: Request, chain2: string, r2: Request)
    requires Free(chain1, ':') && Free(chain2, ':') && Free(r1.methodName, ':') && Free(r2.methodName, ':')
    ensures Key(chain1, r1) == Key(chain2, r2) <==>
      chain1 == chain2 && r1.methodName == r2.methodName && Pieces(r1.params) == Pieces(r2.params)
  {
    JoinsCollideIff(r1.params, r2.params);
    var j1, j2 := "[" + Join(r1.params, ",") + "]", "[" + Join(r2.params, ",") + "]";
    if Key(chain1, r1) == Key(chain2, r2) {
      SplitsOnce(chain1, r1.methodName + ":" + j1, chain2, r2.methodName + ":" + j2, ':');
      SplitsOnce(r1.methodName, j1, r2.methodName, j2, ':');
      assert Join(r1.params, ",") == j1[1..|j1| - 1] && Join(r2.params, ",") == j2[1..|j2| - 1];
    }
  }

  /** Keys of a chain begin with its name. */
  predicate IsKeyOf(chain: string, key: string) {
    chain + ":" <= key
  }

  lemma KeysAreOwn(chain: string, r: Request)
    ensures IsKeyOf(chain, Key(chain, r))
  {
  }

  /** Chains with colon-free names share one Redis without touching each other's keys, whatever is
      asked of them. */
  lemma ChainsDoNotCollide(chain1: string, chain2: string, r: Request)
    requires Free(chain1, ':') && Free(chain2, ':') && IsKeyOf(chain1, Key(chain2, r))
    ensures chain1 == chain2
  {
    var key := Key(chain2, r);
    var rest := key[|chain1| + 1..];
    assert key == chain1 + ":" + rest;
    SplitsOnce(chain1, rest, chain2, r.methodName + ":" + ("[" + Join(r.params, ",") + "]"), ':');
  }

  /** Wherever a parameter holds a comma, the request with that parameter cut in two is a
      different one with the same key. */
  lemma CommasCollide(chain: string, r: Request, before: seq<string>, a: string, b: string, after: seq<string>)
    requires r.params == before + [a + "," + b] + after
    ensures var cut := r.(params := before + [a, b] + after);
      cut != r && Key(chain, cut) == Key(chain, r)
  {
    CutKeepsPieces(before, a, b, after);
    JoinsCollideIff(r.params, before + [a, b] + after);
    assert |before + [a, b] + after| == |r.params| + 1;
  }

  lemma {:induction false} CutKeepsPieces(before: seq<string>, a: string, b: string, after: seq<string>)
    ensures Pieces(before + [a + "," + b] + after) == Pieces(before + [a, b] + after)
  {
    var whole, cut := before + [a + "," + b] + after, before + [a, b] + after;
    if before == [] {
      SplitConcat(a, b);
      assert whole[0] == a + "," + b && whole[1..] == after;
      assert cut[0] == a && cut[1..] == [b] + after && ([b] + after)[1..] == after;
    } else {
      CutKeepsPieces(before[1..], a, b, after);
      assert whole[0] == before[0] && whole[1..] == before[1..] + [a + "," + b] + after;
      assert cut[0] == before[0] && cut[1..] == before[1..] + [a, b] + after;
    }
  }

  // ---- The exchange ----

  /** The upstream's HTTP endpoint: whatever it will answer, in order. */
  class Origin {
    const script: nat -> OriginReply
    var calls: nat

    constructor (script: nat -> OriginReply)
      ensures this.script == script && calls == 0
    {
      this.script := script;
      this.calls := 0;
    }

    method Do() returns (reply: OriginReply)
      modifies this
      ensures calls == old(calls) + 1 && reply == script(old(calls))
    {
      reply := script(calls);
      calls := calls + 1;
    }
  }

  /** A write that has been spawned; `inLocal` when its first half, the local copy, is done. */
  datatype Write = Write(key: string, value: string, inLocal: bool)

  /** Redis with a local copy in front that reads and writes share; `pending` are the writes
      spawned so far. */
  class RPCCache {
    const ttl: int
    const methodTTLs: map<string, int>
    var local: map<string, Option<string>>
    var redis: map<string, Option<string>>
    var pending: seq<Write>

    constructor (ttl: int, methodTTLs: map<string, int>)
      ensures this.ttl == ttl && this.methodTTLs == methodTTLs
      ensures local == map[] && redis == map[] && pending == []
    {
      this.ttl := ttl;
      this.methodTTLs := methodTTLs;
      this.local, this.redis, this.pending := map[], map[], [];
    }

    predicate ShouldCacheMethod(methodName: string) {
      (if methodName in methodTTLs && methodTTLs[methodName] > 0 then methodTTLs[methodName] else ttl) > 0
    }

    /** A read of the key succeeds; a failing Redis does not matter to a local copy. */
    predicate Finds(key: string, redisFails: bool)
      reads this
    {
      key in local || (!redisFails && key in redis)
    }

    function Found(key: string, redisFails: bool): Option<string>
      requires Finds(key, redisFails)
      reads this
    {
      if key in local then local[key] else redis[key]
    }

    /** What is read from Redis is kept as the local copy. */
    method Get(key: string, redisFails: bool) returns (found: bool, value: Option<string>)
      modifies this`local
      ensures found <==> old(Finds(key, redisFails))
      ensures found ==> value == old(Found(key, redisFails)) && local == old(local)[key := value]
      ensures !found ==> value == None && local == old(local)
    {
      if key in local {
        return true, local[key];
      }
      if redisFails || key !in redis {
        return false, None;
      }
      local := local[key := redis[key]];
      return true, redis[key];
    }

    /** A spawned write, when it runs: the local copy is replaced, Redis keeps what it has. */
    method Set(write: Write, redisFails: bool)
      modifies this`local, this`redis
      ensures local == old(local)[write.key := Some(write.value)]
      ensures redis == if redisFails || write.key in old(redis) then old(redis)
                       else old(redis)[write.key := Some(write.value)]
    {
      local := local[write.key := Some(write.value)];
      if !redisFails && write.key !in redis {
        redis := redis[write.key := Some(write.value)];
      }
    }

    method HandleRequestParallel(
        chainName: string, r: Request, redisFails: bool, closure: OriginFunc, origin: Origin)
      returns (result: Option<string>, cached: bool, err: Option<Error>)
      requires closure.body == NoBody && closure.http == None
      modifies this`local, this`pending, closure, origin
      ensures cached <==> old(Finds(Key(chainName, r), redisFails))
      ensures cached ==>
        && err == None && result == old(Found(Key(chainName, r), redisFails))
        && local == old(local)[Key(chainName, r) := result]
        && pending == old(pending) && unchanged(closure) && unchanged(origin)
      ensures !cached ==>
        var reply := origin.script(old(origin.calls));
        && origin.calls == old(origin.calls) + 1
        && closure.body == Interpret(reply).body && closure.http == Interpret(reply).http
        && err == FirstError(reply)
        && local == old(local)
        && pending == old(pending) +
             if Storable(reply).Some? then [Write(Key(chainName, r), Storable(reply).value, false)] else []
    {
      var key := CreateRequestKey(chainName, r);
      var found;
      found, result := Get(key, redisFails);
      if found {
        return result, true, None;
      }
      cached := false;
      var response;
      response, err := closure.Call(origin);
      if err != None {
        return None, false, err;
      }
      result := response.result;
      if result != None {
        pending := pending + [Write(key, result.value, false)];
      }
    }
  }

  /** The error the closure reports for a reply. */
  function FirstError(reply: OriginReply): Option<Error> {
    if Interpret(reply).err != None then Interpret(reply).err
    else if IsNotSingle(reply) then Some(OtherError)
    else if IsSingle(reply)
            && (reply.decoded.value.response.error != None || reply.decoded.value.response.result == Some("null")) then
      Some(HandledError(reply.decoded.value.response))
    else None
  }

  const NO_RESPONSE := Response(None, "", None, 0)

  /** The closure passed to the cache, with the two variables it captures and assigns. */
  class OriginFunc {
    var body: ResponseBody
    var http: Option<int>

    constructor ()
      ensures body == NoBody && http == None
    {
      body := NoBody;
      http := None;
    }

    method Call(origin: Origin) returns (response: Response, err: Option<Error>)
      modifies this, origin
      ensures origin.calls == old(origin.calls) + 1
      ensures var reply := origin.script(old(origin.calls));
        && body == Interpret(reply).body && http == Interpret(reply).http
        && err == FirstError(reply)
        && (err == None ==> IsSingle(reply) && response == reply.decoded.value.response)
    {
      var reply := origin.Do();
      var fetched := Interpret(reply);
      body := fetched.body;
      http := fetched.http;
      if fetched.err != None {
        return NO_RESPONSE, fetched.err;
      }
      if !body.SingleBody? {
        return NO_RESPONSE, Some(OtherError);
      }
      response := body.response;
      if response.error != None {
        return NO_RESPONSE, Some(HandledError(response));
      }
      if response.result == Some("null") {
        return NO_RESPONSE, Some(HandledError(response));
      }
      err := None;
    }
  }

  class Executor {
    const chainName: string
    const cache: RPCCache?

    constructor (chainName: string, cache: RPCCache?)
      ensures this.chainName == chainName && this.cache == cache
    {
      this.chainName := chainName;
      this.cache := cache;
    }

    /** Which requests go through the cache: single ones whose method has a lifetime, its own if that
        is positive, else the general one. */
    lemma CachedIff(body: RequestBody)
      ensures IsCached(body) <==>
        && cache != null && body.SingleRequest?
        && var name := body.request.methodName;
          (name in cache.methodTTLs && cache.methodTTLs[name] > 0) || cache.ttl > 0
    {
    }

    predicate UseCache(body: RequestBody) {
      cache != null && cache.ShouldCacheMethod(if body.SingleRequest? then body.request.methodName else "batch")
    }

    /** The request goes through the cache. */
    predicate IsCached(body: RequestBody) {
      UseCache(body) && body.SingleRequest?
    }

    /** A read of the cache finds an entry, if only one without a value. */
    predicate IsFound(body: RequestBody, redisFails: bool)
      reads cache
    {
      IsCached(body) && cache.Finds(Key(chainName, body.request), redisFails)
    }

    /** A read of the cache finds a value to serve. */
    predicate IsHit(body: RequestBody, redisFails: bool)
      reads cache
    {
      IsFound(body, redisFails) && cache.Found(Key(chainName, body.request), redisFails).Some?
    }

    /** The local copies after a read for this request. */
    function LocalAfter(body: RequestBody, redisFails: bool): map<string, Option<string>>
      requires cache != null
      reads cache
    {
      if IsFound(body, redisFails) then
        cache.local[Key(chainName, body.request) := cache.Found(Key(chainName, body.request), redisFails)]
      else cache.local
    }

    /** The write handed to the cache for a first reply. */
    function Writes(body: RequestBody, goesToCache: bool, first: OriginReply): seq<Write> {
      if goesToCache && body.SingleRequest? && Storable(first).Some?
      then [Write(Key(chainName, body.request), Storable(first).value, false)]
      else []
    }

    method RetrieveOrCacheRequest(r: Request, redisFails: bool, origin: Origin)
      returns (resp: ResponseBody, http: Option<int>, cached: bool, err: Option<Error>)
      requires cache != null
      modifies cache`local, cache`pending, origin
      ensures cached <==> old(cache.Finds(Key(chainName, r), redisFails))
      ensures cached ==>
        var key, val := Key(chainName, r), old(cache.Found(Key(chainName, r), redisFails));
        && cache.local == old(cache.local)[key := val]
        && cache.pending == old(cache.pending) && unchanged(origin)
        && if val == None then err == Some(OtherError) && resp == NoBody && http == None
           else if r.id == None then err == Some(NilIDPanic)
           else err == None && http == Some(STATUS_OK) && resp == SingleBody(Response(None, r.version, val, r.id.value))
      ensures !cached ==>
        var reply := origin.script(old(origin.calls));
        && origin.calls == old(origin.calls) + 1
        && http == Interpret(reply).http
        && (if IsSingle(reply) then err == None && resp == reply.decoded.value
            else err == FirstError(reply) && err != None && resp == NoBody)
        && cache.local == old(cache.local)
        && cache.pending == old(cache.pending) +
             if Storable(reply).Some? then [Write(Key(chainName, r), Storable(reply).value, false)] else []
    {
      var closure := new OriginFunc();
      var val;
      val, cached, err := cache.HandleRequestParallel(chainName, r, redisFails, closure, origin);
      resp, http := closure.body, closure.http;
      if err != None {
        match err.value {
          case HandledError(rb) =>
            // Never both nil here: only request coalescing could return another goroutine's error.
          case _ =>
            return NoBody, http, cached, err;
        }
      }
      if http == None && resp == NoBody {
        if val == None {
          return NoBody, None, cached, Some(OtherError);
        }
        if r.id == None {
          return NoBody, None, cached, Some(NilIDPanic);
        }
        http := Some(STATUS_OK);
        resp := SingleBody(Response(None, r.version, val, r.id.value));
      }
      err := None;
    }

    /** Everything a request can lead to. If it cannot be built, nothing happens. On a hit the origin
        is not called and the stored result is served under the requester's own id and version.
        Otherwise it is called once, or twice when the first reply was read but is not a single
        response; the caller gets the last reply as it came, and only the first reply's storable result
        is handed to the cache. */
    method RouteToConfig(body: RequestBody, builds: bool, redisFails: bool, origin: Origin)
      returns (resp: ResponseBody, http: Option<int>, cached: bool, err: Option<Error>)
      modifies cache, origin
      ensures !builds ==>
        && resp == NoBody && http == None && !cached && err == Some(BuildError)
        && origin.calls == old(origin.calls)
        && (cache != null ==> cache.local == old(cache.local) && cache.redis == old(cache.redis)
                              && cache.pending == old(cache.pending))
      ensures builds && cache != null ==>
        cache.redis == old(cache.redis) && cache.local == old(LocalAfter(body, redisFails))
      ensures builds && old(IsHit(body, redisFails)) ==>
        && origin.calls == old(origin.calls)
        && cache.pending == old(cache.pending)
        && (body.request.id == None <==> err == Some(NilIDPanic))
        && (body.request.id != None ==>
              && err == None && cached && http == Some(200)
              && resp == SingleBody(Response(None, body.request.version,
                           old(cache.Found(Key(chainName, body.request), redisFails)), body.request.id.value)))
      ensures builds && !old(IsHit(body, redisFails)) ==>
        var first, second := origin.script(old(origin.calls)), origin.script(old(origin.calls) + 1);
        var goesToCache := IsCached(body) && !old(IsFound(body, redisFails));
        var retried := goesToCache && first.Received? && first.status < 400 && first.decoded.Some?
          && !first.decoded.value.SingleBody?;
        var last := if retried then second else first;
        && !cached
        && origin.calls == old(origin.calls) + (if retried then 2 else 1)
        && (match last
            case TransportFailed => resp == NoBody && http == None && err == Some(OriginError)
            case Unreadable(status) => resp == NoBody && http == Some(status) && err == Some(OriginError)
            case Received(status, decoded) =>
              && http == Some(status)
              && if status >= 400 then resp == NoBody && err == Some(OriginError)
                 else if decoded == None then resp == NoBody && err == Some(DecodeError)
                 else resp == decoded.value && err == None)
        && (cache != null ==> cache.pending == old(cache.pending) + Writes(body, goesToCache, first))
    {
      if !builds {
        return NoBody, None, false, Some(BuildError);
      }
      if UseCache(body) && body.SingleRequest? {
        resp, http, cached, err := RetrieveOrCacheRequest(body.request, redisFails, origin);
        if err != None {
          match err.value {
            case OriginError => return NoBody, http, cached, err;
            case DecodeError => return NoBody, http, cached, err;
            case NilIDPanic => return;
            case _ =>
          }
        } else {
          return;
        }
      }
      var reply := origin.Do();
      var fetched := Interpret(reply);
      return fetched.body, fetched.http, false, fetched.err;
    }
  }
}
