/** `AIAnalyzer.analyze_with_ollama` and `test_ollama_connection` (backend/ai_analyzer.py):
    when the language-model service is asked, how often, with which prompt, and what text
    comes back.  The HTTP exchanges are replaced by an oracle: the reply to the model-list
    probe and the outcome of each generation request in turn. */
module Gateway {
  import opened Wrappers
  import opened Strings
  import Fallback

  /** Prompts shorter than this never reach the service. */
  const ShortPrompt: nat := 200
  /** Longer prompts are cut to this many characters plus an ellipsis. */
  const PromptLimit: nat := 500
  /** The retry count the analyser's callers use (the parameter's default). */
  const DefaultRetries: int := 1

  /** The reply to `GET /api/tags`: the request raised, or a status with the `name` of each
      listed model (a model without a name reads as ""). */
  datatype Probe = ProbeRaised | ProbeReplied(status: int, modelNames: seq<string>)

  /** One generation request: it raised (connection error, timeout, undecodable body), or
      it came back with a status and the `response` field ("" when the field is absent). */
  datatype Attempt = Raised | Replied(status: int, response: string)

  /** Everything the service will answer during one call. Requests past the end of
      `attempts` raise. */
  datatype Network = Network(probe: Probe, attempts: seq<Attempt>)

  /** What one call produced: the text, whether the service was probed, the prompt the
      generation requests carried (when any could be sent), and how many were sent. */
  datatype Exchange = Exchange(text: string, probed: bool, sent: Option<string>, requests: nat)

  /** `test_ollama_connection`: the probe answered 200 and some model's name mentions llama3. */
  predicate ModelAvailable(p: Probe) {
    p.ProbeReplied? && p.status == 200 &&
    exists i :: 0 <= i < |p.modelNames| && Contains(p.modelNames[i], "llama3")
  }

  function AttemptAt(net: Network, i: nat): Attempt {
    if i < |net.attempts| then net.attempts[i] else Raised
  }

  /** Request `i` came back with status 200. */
  predicate Answered(net: Network, i: nat) {
    AttemptAt(net, i).Replied? && AttemptAt(net, i).status == 200
  }

  /** `range(max_retries + 1)`: the number of requests the loop may send. */
  function Tries(maxRetries: int): (n: nat)
    ensures maxRetries >= 0 ==> n == maxRetries + 1
    ensures maxRetries < 0 ==> n == 0
  {
    if maxRetries >= 0 then maxRetries + 1 else 0
  }

  /** The prompt actually sent: the first 500 characters and "..." when it is longer. */
  function Truncate(prompt: string): (r: string)
    ensures |r| <= PromptLimit + 3
    ensures StartsWith(r, Prefix(prompt, PromptLimit))
    ensures |prompt| <= PromptLimit ==> r == prompt
    ensures |prompt| > PromptLimit ==> |r| == PromptLimit + 3 && r[PromptLimit..] == "..."
  {
    if |prompt| > PromptLimit then prompt[..PromptLimit] + "..." else prompt
  }

  /** The first request in `[from, tries)` that is answered with 200, if any. */
  function FirstAnswer(net: Network, from: nat, tries: nat): (r: Option<nat>)
    ensures r.Some? ==> from <= r.value < tries && Answered(net, r.value)
    ensures r.Some? ==> forall j :: from <= j < r.value ==> !Answered(net, j)
    ensures r.None? ==> forall j :: from <= j < tries ==> !Answered(net, j)
    decreases tries - from
  {
    if from >= tries then None
    else if Answered(net, from) then Some(from)
    else FirstAnswer(net, from + 1, tries)
  }

  /** `analyze_with_ollama(prompt, max_retries)`. */
  function Analyze(prompt: string, maxRetries: int, net: Network): Exchange {
    if |prompt| < ShortPrompt then Exchange(Fallback.FallbackAnalysis(prompt), false, None, 0)
    else if !ModelAvailable(net.probe) then Exchange(Fallback.FallbackAnalysis(prompt), true, None, 0)
    else
      var sent := Truncate(prompt);
      var tries := Tries(maxRetries);
      match FirstAnswer(net, 0, tries)
      case Some(i) => Exchange(Strip(AttemptAt(net, i).response), true, Some(sent), i + 1)
      case None => Exchange(Fallback.FallbackAnalysis(sent), true, Some(sent), tries)
  }

  /** The same policy as a loop over the attempts, the way the source runs it. */
  method AnalyzeLoop(prompt: string, maxRetries: int, net: Network) returns (r: Exchange)
    ensures r == Analyze(prompt, maxRetries, net)
  {
    if |prompt| < ShortPrompt {
      return Exchange(Fallback.FallbackAnalysis(prompt), false, None, 0);
    }
    if !ModelAvailable(net.probe) {
      return Exchange(Fallback.FallbackAnalysis(prompt), true, None, 0);
    }
    var sent := Truncate(prompt);
    var tries := Tries(maxRetries);
    var attempt: nat := 0;
    while attempt < tries
      invariant attempt <= tries
      invariant FirstAnswer(net, attempt, tries) == FirstAnswer(net, 0, tries)
    {
      var a := AttemptAt(net, attempt);
      if a.Replied? && a.status == 200 {
        return Exchange(Strip(a.response), true, Some(sent), attempt + 1);
      }
      attempt := attempt + 1;
    }
    return Exchange(Fallback.FallbackAnalysis(sent), true, Some(sent), tries);
  }

  // ---------------------------------------------------------------------------
  // Properties

  /** Short prompts are answered locally without any request, not even the probe. */
  lemma ShortPromptStaysLocal(prompt: string, maxRetries: int, net: Network)
    requires |prompt| < ShortPrompt
    ensures var r := Analyze(prompt, maxRetries, net);
            !r.probed && r.requests == 0 && r.text == Fallback.FallbackAnalysis(prompt)
  {
  }

  /** A long prompt whose probe does not find the model is answered locally from the whole,
      uncut prompt: the probe is the only exchange, and neither the retry count nor the
      outcomes the requests would have had matter. */
  lemma FailedProbeFallsBack(prompt: string, maxRetries: int, net: Network)
    requires |prompt| >= ShortPrompt && !ModelAvailable(net.probe)
    ensures var r := Analyze(prompt, maxRetries, net);
            r.text == Fallback.FallbackAnalysis(prompt) && r.probed && r.sent.None? && r.requests == 0 &&
            forall m: int, attempts: seq<Attempt> :: Analyze(prompt, m, Network(net.probe, attempts)) == r
  {
  }

  /** At most `max_retries + 1` generation requests, each carrying the truncated prompt,
      and none unless the probe found the model. */
  lemma RequestBound(prompt: string, maxRetries: int, net: Network)
    ensures var r := Analyze(prompt, maxRetries, net);
            r.requests <= Tries(maxRetries) &&
            (r.requests > 0 ==> ModelAvailable(net.probe) && |prompt| >= ShortPrompt) &&
            (r.sent.Some? ==> r.sent.value == Truncate(prompt) && |r.sent.value| <= PromptLimit + 3)
  {
  }

  /** The reply of the first request answered with 200 is returned stripped, even when it is
      empty, and no later request is sent. */
  lemma FirstReplyWins(prompt: string, maxRetries: int, net: Network, i: nat)
    requires |prompt| >= ShortPrompt && ModelAvailable(net.probe)
    requires i < Tries(maxRetries) && Answered(net, i)
    requires forall j :: 0 <= j < i ==> !Answered(net, j)
    ensures var r := Analyze(prompt, maxRetries, net);
            r.text == Strip(AttemptAt(net, i).response) && r.requests == i + 1
  {
    assert FirstAnswer(net, 0, Tries(maxRetries)) == Some(i);
  }

  /** When every allowed request fails, the fallback runs on the truncated prompt, not on
      the caller's. */
  lemma ExhaustedFallsBackOnTruncated(prompt: string, maxRetries: int, net: Network)
    requires |prompt| >= ShortPrompt && ModelAvailable(net.probe)
    requires forall j :: 0 <= j < Tries(maxRetries) ==> !Answered(net, j)
    ensures var r := Analyze(prompt, maxRetries, net);
            r.text == Fallback.FallbackAnalysis(Truncate(prompt)) && r.requests == Tries(maxRetries)
  {
  }

  /** Only the requests actually sent matter: two services that agree on the probe and on
      those requests give the same exchange. */
  lemma OnlySentRequestsMatter(prompt: string, maxRetries: int, a: Network, b: Network)
    requires a.probe == b.probe
    requires forall j: nat :: j < Analyze(prompt, maxRetries, a).requests ==> AttemptAt(a, j) == AttemptAt(b, j)
    ensures Analyze(prompt, maxRetries, a) == Analyze(prompt, maxRetries, b)
  {
    if |prompt| >= ShortPrompt && ModelAvailable(a.probe) {
      var tries := Tries(maxRetries);
      var fa := FirstAnswer(a, 0, tries);
      var n := Analyze(prompt, maxRetries, a).requests;
      forall j | 0 <= j < n ensures Answered(a, j) == Answered(b, j) {
        assert AttemptAt(a, j) == AttemptAt(b, j);
      }
      SameFirstAnswer(a, b, 0, tries, n);
    }
  }

  lemma {:induction false} SameFirstAnswer(a: Network, b: Network, from: nat, tries: nat, n: nat)
    requires n <= tries
    requires forall j :: from <= j < n ==> Answered(a, j) == Answered(b, j)
    requires (FirstAnswer(a, from, tries).Some? && FirstAnswer(a, from, tries).value < n) ||
             (FirstAnswer(a, from, tries).None? && n == tries)
    ensures FirstAnswer(a, from, tries) == FirstAnswer(b, from, tries)
    decreases tries - from
  {
    if from < tries && !Answered(a, from) {
      SameFirstAnswer(a, b, from + 1, tries, n);
    }
  }

  /** More retries never change an answer that came within fewer. */
  lemma MoreRetriesKeepAnswer(prompt: string, m: int, k: int, net: Network)
    requires m <= k
    requires FirstAnswer(net, 0, Tries(m)).Some?
    ensures Analyze(prompt, m, net) == Analyze(prompt, k, net)
  {
    if |prompt| >= ShortPrompt && ModelAvailable(net.probe) {
      ExtendTries(net, 0, Tries(m), Tries(k));
    }
  }

  lemma {:induction false} ExtendTries(net: Network, from: nat, t: nat, u: nat)
    requires t <= u && FirstAnswer(net, from, t).Some?
    ensures FirstAnswer(net, from, u) == FirstAnswer(net, from, t)
    decreases t - from
  {
    if !Answered(net, from) {
      ExtendTries(net, from + 1, t, u);
    }
  }
}
