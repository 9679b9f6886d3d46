/** Which responses count as errors: wildcard codes, substrings, and merged pattern lists. */
module ErrorMatching {
  import opened Wrappers
  import opened StringLists
  import opened ConfigSpec

  /** The wildcard, in either case. */
  predicate IsWildcard(c: char) {
    c == 'x' || c == 'X'
  }

  ghost predicate CodeMatches(code: string, pattern: string) {
    |code| == |pattern| && forall i | 0 <= i < |code| :: IsWildcard(pattern[i]) || code[i] == pattern[i]
  }

  predicate OccursAt(s: string, sub: string, i: int) {
    0 <= i <= |s| - |sub| && s[i..i + |sub|] == sub
  }

  ghost predicate Contains(s: string, sub: string) {
    exists i :: OccursAt(s, sub, i)
  }

  /** An empty list matches every non-empty code, and nothing matches an empty one. */
  ghost predicate MatchesSome(code: string, patterns: seq<string>) {
    code != "" && (patterns == [] || exists p :: p in patterns && CodeMatches(code, p))
  }

  ghost predicate ContainsSome(msg: string, errors: seq<string>) {
    msg != "" && (errors == [] || exists e :: e in errors && Contains(msg, e))
  }

  /** The usual pattern: any code of three characters that begins with the given one. */
  lemma HundredsMatch(code: string, first: char)
    requires !IsWildcard(first)
    ensures CodeMatches(code, [first, 'x', 'x']) <==> |code| == 3 && code[0] == first
    ensures CodeMatches(code, [first, 'X', 'X']) <==> |code| == 3 && code[0] == first
    ensures CodeMatches(code, [first, '0', '4']) <==> code == [first, '0', '4']
  {
    if CodeMatches(code, [first, '0', '4']) {
      assert code[1] == [first, '0', '4'][1] && code[2] == [first, '0', '4'][2];
    }
  }

  /** A substring may stand anywhere. */
  lemma ContainsIff(s: string, sub: string)
    ensures Contains(s, sub) <==> exists a: string, b: string :: s == a + sub + b
  {
    if i :| OccursAt(s, sub, i) {
      assert s == s[..i] + sub + s[i + |sub|..];
    }
    if a: string, b: string :| s == a + sub + b {
      assert s[|a|..|a| + |sub|] == sub;
      assert OccursAt(s, sub, |a|);
    }
  }

  method IsMatch(responseCode: string, pattern: string) returns (ok: bool)
    ensures ok <==> CodeMatches(responseCode, pattern)
  {
    if |responseCode| != |pattern| {
      return false;
    }
    for i := 0 to |responseCode|
      invariant forall k | 0 <= k < i :: IsWildcard(pattern[k]) || responseCode[k] == pattern[k]
    {
      var y := pattern[i];
      if IsWildcard(y) {
        continue;
      }
      if responseCode[i] != y {
        return false;
      }
    }
    return true;
  }

  method IsMatchForPatterns(responseCode: string, patterns: seq<string>) returns (ok: bool)
    ensures ok <==> MatchesSome(responseCode, patterns)
  {
    if responseCode == "" {
      return false;
    }
    if |patterns| == 0 {
      return true;
    }
    for i := 0 to |patterns|
      invariant forall p | p in patterns[..i] :: !CodeMatches(responseCode, p)
    {
      var ok := IsMatch(responseCode, patterns[i]);
      if ok {
        return true;
      }
      assert patterns[..i + 1] == patterns[..i] + [patterns[i]];
    }
    assert patterns[..|patterns|] == patterns;
    return false;
  }

  /** `strings.Contains`. */
  method StringContains(s: string, sub: string) returns (ok: bool)
    ensures ok <==> Contains(s, sub)
  {
    var i := 0;
    while i <= |s| - |sub|
      invariant 0 <= i
      invariant forall k | 0 <= k < i :: !OccursAt(s, sub, k)
    {
      if OccursAt(s, sub, i) {
        return true;
      }
      i := i + 1;
    }
    return false;
  }

  method IsErrorMatches(errorMsg: string, errors: seq<string>) returns (ok: bool)
    ensures ok <==> ContainsSome(errorMsg, errors)
  {
    if errorMsg == "" {
      return false;
    }
    if |errors| == 0 {
      return true;
    }
    for i := 0 to |errors|
      invariant forall e | e in errors[..i] :: !Contains(errorMsg, e)
    {
      var ok := StringContains(errorMsg, errors[i]);
      if ok {
        return true;
      }
      assert errors[..i + 1] == errors[..i] + [errors[i]];
    }
    assert errors[..|errors|] == errors;
    return false;
  }

  /** A response is an error when its HTTP code, its JSON-RPC code or its message is. */
  ghost predicate IsErrorFor(e: Errors, httpCode: string, jsonRPCCode: string, msg: string) {
    MatchesSome(httpCode, e.httpCodes) || MatchesSome(jsonRPCCode, e.jsonRPCCodes) || ContainsSome(msg, e.errorStrings)
  }

  method IsError(e: Errors, httpCode: string, jsonRPCCode: string, errorMsg: string) returns (isError: bool)
    ensures isError <==> IsErrorFor(e, httpCode, jsonRPCCode, errorMsg)
  {
    isError := IsMatchForPatterns(httpCode, e.httpCodes);
    if !isError {
      isError := IsMatchForPatterns(jsonRPCCode, e.jsonRPCCodes);
    }
    if !isError {
      isError := IsErrorMatches(errorMsg, e.errorStrings);
    }
  }

  // ---- Merging lists ----

  lemma TidyIsEmptyIff(a: seq<string>, b: seq<string>)
    ensures SortAndRemoveDuplicates(a + b) == [] <==> a == [] && b == []
    ensures forall x :: x in SortAndRemoveDuplicates(a + b) <==> x in a || x in b
  {
    SortAndRemoveDuplicatesMeaning(a + b);
    EmptyHasNoElements(SortAndRemoveDuplicates(a + b));
    EmptyHasNoElements(a + b);
  }

  /** Matching against merged lists: either list's verdict when both are non-empty; the
      non-empty one's when the other is empty, although on its own the empty one matches all. */
  lemma MergedVerdict(code: string, chain: seq<string>, global: seq<string>)
    ensures var merged := SortAndRemoveDuplicates(chain + global);
      && (chain != [] && global != [] ==>
            (MatchesSome(code, merged) <==> MatchesSome(code, chain) || MatchesSome(code, global))
            && (ContainsSome(code, merged) <==> ContainsSome(code, chain) || ContainsSome(code, global)))
      && (chain == [] ==>
            (MatchesSome(code, merged) <==> MatchesSome(code, global))
            && (ContainsSome(code, merged) <==> ContainsSome(code, global)))
      && (global == [] ==>
            (MatchesSome(code, merged) <==> MatchesSome(code, chain))
            && (ContainsSome(code, merged) <==> ContainsSome(code, chain)))
  {
    TidyIsEmptyIff(chain, global);
  }

  /** An empty list that is merged into one that rejects the text, by codes or by messages. */
  ghost predicate EmptyHides(text: string, chain: seq<string>, global: seq<string>, rejects: seq<string> -> bool) {
    text != "" && ((chain == [] && rejects(global)) || (global == [] && rejects(chain)))
  }

  /** So merging is "match either list" exactly when an empty list is not being merged into a
      list that rejects something; for codes and for messages. */
  lemma MergingIsEitherIff(text: string, chain: seq<string>, global: seq<string>)
    ensures (MatchesSome(text, SortAndRemoveDuplicates(chain + global))
             <==> MatchesSome(text, chain) || MatchesSome(text, global))
      <==> !EmptyHides(text, chain, global, list => !MatchesSome(text, list))
    ensures (ContainsSome(text, SortAndRemoveDuplicates(chain + global))
             <==> ContainsSome(text, chain) || ContainsSome(text, global))
      <==> !EmptyHides(text, chain, global, list => !ContainsSome(text, list))
  {
    MergedVerdict(text, chain, global);
  }

  /** What a chain's list and the global one say together: an empty one says nothing. */
  ghost predicate Together(chain: seq<string>, global: seq<string>, accepts: seq<string> -> bool) {
    if chain == [] then accepts(global) else if global == [] then accepts(chain) else accepts(chain) || accepts(global)
  }

  /** Verdicts of a chain's merged section, list by list, whichever lists are configured. */
  lemma MergedSectionVerdict(chain: Errors, global: Errors, httpCode: string, jsonRPCCode: string, msg: string)
    ensures IsErrorFor(MergedLists(chain, global), httpCode, jsonRPCCode, msg) <==>
      || Together(chain.httpCodes, global.httpCodes, list => MatchesSome(httpCode, list))
      || Together(chain.jsonRPCCodes, global.jsonRPCCodes, list => MatchesSome(jsonRPCCode, list))
      || Together(chain.errorStrings, global.errorStrings, list => ContainsSome(msg, list))
  {
    MergedVerdict(httpCode, chain.httpCodes, global.httpCodes);
    MergedVerdict(jsonRPCCode, chain.jsonRPCCodes, global.jsonRPCCodes);
    MergedVerdict(msg, chain.errorStrings, global.errorStrings);
  }

  /** Verdicts of a chain as configured: a section that is missing, in the chain or globally, says
      nothing. */
  lemma ResolvedChainVerdict(r: Routing, g: Routing, httpCode: string, jsonRPCCode: string, msg: string)
    requires !r.isInitialized && !g.isInitialized && (IsDefined(r) || IsDefined(g))
    ensures var c := ResolvedChain(r, g); var none := Errors([], [], [], 0.0);
      var own := if r.errors.Some? then r.errors.value else none;
      var global := if g.errors.Some? then g.errors.value else none;
      && c.errors.Some?
      && (IsErrorFor(c.errors.value, httpCode, jsonRPCCode, msg) <==>
            || Together(own.httpCodes, global.httpCodes, list => MatchesSome(httpCode, list))
            || Together(own.jsonRPCCodes, global.jsonRPCCodes, list => MatchesSome(jsonRPCCode, list))
            || Together(own.errorStrings, global.errorStrings, list => ContainsSome(msg, list)))
  {
    var none := Errors([], [], [], 0.0);
    var own := if r.errors.Some? then r.errors.value else none;
    var global := if g.errors.Some? then g.errors.value else none;
    var c := ResolvedChain(r, g).errors.value;
    assert [] + global.httpCodes == global.httpCodes && [] + global.jsonRPCCodes == global.jsonRPCCodes;
    assert [] + global.errorStrings == global.errorStrings;
    var merged := MergedLists(own, global);
    assert c.httpCodes == merged.httpCodes && c.jsonRPCCodes == merged.jsonRPCCodes;
    assert c.errorStrings == merged.errorStrings;
    MergedSectionVerdict(own, global, httpCode, jsonRPCCode, msg);
  }

  /** Tidying a section, or merging it with itself, never changes a verdict. */
  lemma TidyKeepsVerdicts(e: Errors, httpCode: string, jsonRPCCode: string, msg: string)
    ensures IsErrorFor(Tidy(e), httpCode, jsonRPCCode, msg) <==> IsErrorFor(e, httpCode, jsonRPCCode, msg)
    ensures IsErrorFor(MergedLists(e, e), httpCode, jsonRPCCode, msg) <==> IsErrorFor(e, httpCode, jsonRPCCode, msg)
  {
    SelfMergeTidies(e);
    assert e.httpCodes + [] == e.httpCodes && e.jsonRPCCodes + [] == e.jsonRPCCodes;
    assert e.errorStrings + [] == e.errorStrings;
    MergedVerdict(httpCode, e.httpCodes, []);
    MergedVerdict(jsonRPCCode, e.jsonRPCCodes, []);
    MergedVerdict(msg, e.errorStrings, []);
  }

  // ---- Recording a request ----

  datatype RPCError = RPCError(code: string, message: string)

  /** `body` is None when there was no JSON-RPC response; its elements are the sub-responses'
      errors, None where there is none. Codes are already decimal. */
  datatype RequestData = RequestData(
    httpCode: int, httpCodeText: string, errorText: string, body: Option<seq<Option<RPCError>>>)

  const STATUS_BAD_REQUEST := 400

  /** What one sub-response contributes to the circuit breaker. */
  ghost predicate CountsAsError(e: Errors, sub: Option<RPCError>) {
    sub.Some? && IsErrorFor(e, "", sub.value.code, sub.value.message)
  }

  predicate HasNoResponses(data: RequestData) {
    data.httpCode >= STATUS_BAD_REQUEST || data.body == None
  }

  /** What the breaker is told about a request. */
  ghost predicate Recorded(e: Errors, data: RequestData, records: seq<bool>) {
    if HasNoResponses(data) then
      |records| == 1 && (records[0] <==> IsErrorFor(e, data.httpCodeText, "", data.errorText))
    else
      |records| == |data.body.value|
      && forall i | 0 <= i < |records| :: records[i] <==> CountsAsError(e, data.body.value[i])
  }

  /** An upstream's error check; `responses` is everything its circuit breaker has been told. */
  class ErrorCheck {
    const errors: Errors
    const isCheckEnabled: bool
    var responses: seq<bool>

    constructor (errors: Errors, isCheckEnabled: bool)
      ensures this.errors == errors && this.isCheckEnabled == isCheckEnabled && responses == []
    {
      this.errors := errors;
      this.isCheckEnabled := isCheckEnabled;
      responses := [];
    }

    /** One record for a failed HTTP exchange, one per sub-response otherwise. The result is not
        "an error was recorded": a failed exchange always yields true. */
    method RecordRequest(data: RequestData) returns (isError: bool)
      modifies this`responses
      ensures !isCheckEnabled ==> !isError && responses == old(responses)
      ensures isCheckEnabled ==>
        && old(responses) <= responses
        && Recorded(errors, data, responses[|old(responses)|..])
      ensures isCheckEnabled && (data.httpCode >= 400 || data.body == None) ==>
        && |responses| == |old(responses)| + 1 && isError
        && (responses[|old(responses)|] <==>
              MatchesSome(data.httpCodeText, errors.httpCodes) || ContainsSome(data.errorText, errors.errorStrings))
      ensures isCheckEnabled && data.httpCode < 400 && data.body.Some? ==>
        && |responses| == |old(responses)| + |data.body.value|
        && forall i | 0 <= i < |data.body.value| ::
             var sub, record := data.body.value[i], responses[|old(responses)| + i];
             if sub == None then !record
             else record <==> MatchesSome(sub.value.code, errors.jsonRPCCodes)
                              || ContainsSome(sub.value.message, errors.errorStrings)
      ensures isCheckEnabled ==>
        && (isError <==> HasNoResponses(data) || true in responses[|old(responses)|..])
    {
      if !isCheckEnabled {
        return false;
      }
      isError := false;
      ghost var before := responses;
      if data.httpCode >= STATUS_BAD_REQUEST || data.body == None {
        var b := IsError(errors, data.httpCodeText, "", data.errorText);
        responses := responses + [b];
        assert responses[|before|..] == [b];
        isError := true;
      } else {
        var subs := data.body.value;
        for i := 0 to |subs|
          invariant |responses| == |before| + i && before <= responses
          invariant forall k | 0 <= k < i :: responses[|before| + k] <==> CountsAsError(errors, subs[k])
          invariant isError <==> exists k :: |before| <= k < |responses| && responses[k]
        {
          ghost var earlier := responses;
          if subs[i] != None {
            var b := IsError(errors, "", subs[i].value.code, subs[i].value.message);
            if b {
              isError := true;
            }
            responses := responses + [b];
          } else {
            responses := responses + [false];
          }
          assert forall k | 0 <= k < |earlier| :: responses[k] == earlier[k];
        }
        var added := responses[|before|..];
        assert forall k | 0 <= k < |added| :: added[k] == responses[|before| + k];
      }
    }
  }

  /** The result disagrees with "an error was recorded" exactly for a failed exchange whose code
      and message match no pattern. */
  lemma ResultDisagreesIff(e: Errors, data: RequestData, records: seq<bool>)
    requires Recorded(e, data, records)
    ensures ((HasNoResponses(data) || true in records) <==> true in records)
      <==> !(HasNoResponses(data) && !IsErrorFor(e, data.httpCodeText, "", data.errorText))
  {
    if HasNoResponses(data) {
      assert true in records <==> records[0];
    }
  }
}
